# Glimmervoid: a verified model of its stateful cores

Glimmervoid shows many terminal sessions in one page. This project models the parts of it that keep
state over long runs, in Dafny, and proves what holds in every run:

- **The session-trace window.** A panel keeps a window of one session's append-only log as turns, a
  tool-call index and counts of unresolved references, grown page by page at either end and trimmed
  at the front. The index is proved equal to regrouping the whole slice, and the paging protocol is
  proved safe under late, repeated, reordered and lost replies and session switches, and live: a reply that
  fits is taken in, and when requests are answered the window reaches the log's end. Which records head
  turns, and what the captions name, is said on the records themselves.
- **The terminal write scheduler.** Per-terminal queues, chunk and slice limits, one batch in flight,
  actions between writes, a round-robin budget per frame. Nothing enqueued is lost, repeated or
  reordered, an action waits for what came before it, no terminal is forgotten or starved, and each frame
  serves exactly the first serviceable ones in line that its budget allows, each as far as its limit goes.
- **The control channel.** The server numbers broadcasts and keeps a bounded replay log; the page keeps
  a cursor, reconnects and asks for a replay. The numbers handled strictly rise over a whole run, the
  replay is exact, the log keeps exactly the newest and youngest replayable broadcasts, and the runs that
  lose no replayable broadcast are exactly those of careful steps.
- **Status detection.** A parser of OSC title strings (sections 8.3.89 and 8.3.143 of ECMA-48, and the
  BEL terminator of xterm) that does not depend on how its input is cut into chunks; the debounced
  title latch and the conflict-window merger behind it, told from the history of what they saw: what is
  emitted was called for, and what is called for is emitted at once.
- **Merging state.** The settings page's three-way save with the values it shows and sends, the update-check
  lane, and the capped list of recent activity.

Each core that updates state in place is a class or a method with loops, proved against a function or a
step system over values; the laws are lemmas about those. Clocks, timers, transports and the terminal
are steps, deadlines, queues and logs. Text helpers (first lines, labels' details, trimming, number
conversion) are parameters, so the results hold for any choice of them. Every lemma is proved without the
verifier's automatic induction: each use of an induction hypothesis is a call.

Some promises hold only under a condition. Each of these is stated as an if-and-only-if, in terms of what is
there before the call or of the events of the run, and its failing side is shown on inputs: a page appended
after, or put before, a call it refers to (`AppendIsBatchIff`, `LateCallStaysUnresolved`,
`PrependIsBatchIff`, `EarlyResultKeepsLabel`), the counts after a trim and over runs (`TrimCountsExactIff`,
`CountsExactIff`, `TrimLosesCount`), the row cap of zero (`TrimMeetsCapIff`), a prepend in front of a headless
turn on the page (`PageFollowsIff`, `HeadlessPrependIsNotShown`), a stop while something waits
(`StopSleepsUntilWoken`, `StopLosesWakeup`), a reconnect (`AcceptCompleteIff`) and whole runs of broadcasts and
reconnects (`NothingLostIff`, `SnapshotLosesReplay`), the cut of an overlong title buffer
(`CutLosesNothingIff`, `ChunkingIndependenceIff`, `CutLosesTitle`), a write through a list
(`SetLeavesOthersIff`), the comparison of settings values (`ValuesEqualIff`, `LengthLooksLikeList`), the
recorded update status after a stop (`RecordedIsConfigured`, `StopLeavesStatus`), and projects a picker cannot
show (`HiddenProjectsStayIff`, `LateProjectIsDropped`).

The objects on which the comparison of settings values goes wrong are not values the page displays: its
editable settings are toggles, numbers, texts, choices and lists of texts (public/settings-map.ts), and on
plain values and lists of them the comparison is equality (`FlatValuesEqualIff`).

`dafny verify dfyconfig.toml` checks everything.

## Model

| member | source | states |
|---|---|---|
| TracePages.AnyMixIsBatch | public/trace-view-core.ts:157-229 | Whatever mix of pages is appended and prepended, if every call precedes its references the turns, labels, call index and unresolved counts are those of regrouping the joined slice at once |
| TracePages.AnyMixGroups | public/trace-view-core.ts:157-229 | On any log whatever, heads and rows are those of regrouping the joined slice, and only the first turn can be headless |
| TraceGroupingLaws.AppendIsBatchIff | public/trace-view-core.ts:157-189 | On any log, appending a page agrees with regrouping iff every resident record that refers to a call of the page referred to a resident call before and keeps its label |
| TraceGroupingLaws.UniqueKeepsResidentIff | public/trace-view-core.ts:157-167 | With unique call ids that condition is: no call of the page arrives after a record that refers to it |
| TraceGroupingLaws.LateCallStaysUnresolved | public/trace-view-core.ts:157-167 | A call that arrives after its reference leaves that reference counted as unresolved, which regrouping would not |
| TraceGroupingLaws.PrependIsBatchIff | public/trace-view-core.ts:198-229 | On any log, prepending a page agrees with regrouping iff no record of the page refers to a resident call that would change its label; call index and counts agree without a condition |
| TraceGroupingLaws.EarlyResultKeepsLabel | public/trace-view-core.ts:198-229 | A result prepended before its resident call keeps the label it has without that call |
| TraceGroupingLaws.MergeIsRegroup | public/trace-view-core.ts:216-226 | Joining the turn that a page boundary cut in two is grouping the two pages as one |
| TraceGroupingLaws.RelabelIsRegroup | public/trace-view-core.ts:141-151 | Relabelling the rows of the turns is grouping the relabelled rows: no head ever needs a new label |
| TraceGroupingLaws.AppendShape | public/trace-view-core.ts:157-189 | Heads and rows after an append, for any log and whatever the labels were |
| TraceGroupingLaws.PrependShape | public/trace-view-core.ts:198-229 | Heads and rows after a prepend, for any log and whatever the labels were |
| TraceGroupingLaws.HeadlessTurns | public/trace-view-core.ts:174-178 | A grouping has a headless turn iff its slice does not begin with a turn's start, and then only the first; which records are starts is `TraceHeads.BatchHeads` |
| TraceGroupingLaws.GroupingIsUnique | public/trace-view-core.ts:157-189 | The shape conditions and the rows in order leave only one grouping |
| TraceGroupingLaws.BatchRecords | public/trace-view-core.ts:157-189 | Grouping loses no record and keeps their order |
| TraceHeads.BatchHeads | public/trace-view-core.ts:58-66 | On the records themselves: the heads of a grouping are in order exactly the prompts, the session records, and the expansions of no call whose text names a command; every other record stands in some turn's rows |
| TraceHeads.AnyMixHeads | public/trace-view-core.ts:157-229 | The same for any mix of appended and prepended pages, on any log |
| TraceHeads.WindowHeads | public/trace-panel.ts:474-521 | And in every run of the panel, for a window that was not trimmed |
| TraceHeads.RowsNameTheirCalls | public/trace-view-core.ts:84-115 | If call ids are unique and every call precedes its references, then however the pages came each row is that of its record, only notices are muted, and the caption of a result or an expansion names the call it belongs to or says there is none |
| TraceHeads.UnresolvedIff | public/trace-view-core.ts:117-135 | If every call precedes its references, an id is counted as unresolved iff some record belongs to it and no record of the slice is its call |
| TraceHeads.CaptionMarks | public/trace-view-core.ts:101-115 | The agent and the mark of a record cut short stand before and after the caption it would have without them |
| TraceTrimLaws.TrimKeepsSuffix | public/trace-view-core.ts:261-285 | A trim keeps a suffix of the turns and cuts rows inside a turn only when it is the sole one left |
| TraceTrimLaws.DropCountFits | public/trace-view-core.ts:272-282 | Whole turns go oldest first, no more than the cap needs, and never the last |
| TraceTrimLaws.TrimDropsNoMore | public/trace-view-core.ts:261-285 | A trim drops no more than the cap needs: the turn dropped last no longer fitted, and a newest turn that is cut is filled up to the cap |
| TraceTrimLaws.TrimMeetsCapIff | public/trace-view-core.ts:272-285 | The cap is met iff it is at least one or the newest turn has no head |
| TraceTrimLaws.TrimIsIdentityIff | public/trace-view-core.ts:272-285 | With a cap of at least one, nothing is dropped iff the rows already fit |
| TraceTrimLaws.TrimIndex | public/trace-view-core.ts:241-254 | After a trim the call index holds exactly the calls of the kept rows, and the counts are those of the kept rows against the calls known before |
| TraceTrimLaws.TrimCountsExactIff | public/trace-view-core.ts:241-285 | The counts are still exact after a trim iff none of the rows it will keep refers to a call of the rows it will drop, both read off the grouping and the cap before the trim |
| TraceTrimLaws.TrimForgetsCalls | public/trace-view-core.ts:241-285 | A trim takes exactly the calls of the dropped rows out of the index |
| TraceCountRuns.CountsExactIff | public/trace-view-core.ts:157-285 | Over any run of appends, prepends and trims with unique call ids the counts are those of the resident rows all along iff no call is appended after a resident record that refers to it and no trim keeps a row that refers to a call it drops |
| TraceCountRuns.ChangeCountsIff | public/trace-view-core.ts:157-285 | From exact counts one change leaves them exact under that condition and no other; a prepend always does |
| TraceTrimLaws.TrimLosesCount | public/trace-view-core.ts:241-250 | A call and its result cut to one row: the result's call is gone and not counted |
| TraceRenderedView.RenderedAppend | public/trace-panel.ts:310-321 | Replaying the reported appends on the rendered list gives the grouping's turns |
| TraceRenderedView.RenderedTrim | public/trace-panel.ts:341-360 | Replaying the reported trim counts on the rendered list gives the trimmed turns |
| TraceRenderedView.ReportedTurnsAreFirst | public/trace-view-core.ts:216-229 | The new turns reported for a prepend are the first turns of the grouping, as relabelled |
| TraceRenderedView.RenderedPrependIff | public/trace-panel.ts:401-423 | When no label changes, replaying a prepend gives the turns iff a head was merged or no rows were |
| TraceRenderedView.RenderedPrependExactly | public/trace-panel.ts:401-423 | The same as a condition on the page: it fails iff the page starts no turn and continues a headless one |
| TraceRenderedView.HeadlessPrependIsNotShown | public/trace-panel.ts:404-413 | A notice prepended to a headless turn never reaches the page |
| TraceRenderedView.PageFollowsIff | public/trace-panel.ts:310-436 | Over any run of appends, prepends and trims the page shows the turns of the grouping all along iff no prepend in place continues a headless turn without starting one |
| TraceGroupings.TraceGrouping.Append | public/trace-view-core.ts:157-189 | The loops over the page give the model's grouping and the deltas reported for the page; what that grouping is on the records themselves is `TraceHeads.AnyMixHeads` |
| TraceGroupings.TraceGrouping.Prepend | public/trace-view-core.ts:198-229 | The merge of calls, counts and turns in place gives the model's grouping and report |
| TraceGroupings.TraceGrouping.MergeIndex | public/trace-view-core.ts:201-215 | Merging an earlier page's index gives the joined calls, the ids it resolves, and the counts of what stays unresolved |
| TraceGroupings.TraceGrouping.RelabelRowsOf | public/trace-view-core.ts:141-151 | Exactly the rows that refer to one of the ids are relabelled |
| TraceGroupings.TraceGrouping.ForgetRows | public/trace-view-core.ts:241-250 | Forgetting rows removes their calls and releases their references, with multiplicity |
| TraceGroupings.TraceGrouping.Trim | public/trace-view-core.ts:272-285 | The counting loop drops what the model drops and reports it |
| TraceGroupings.TraceGrouping.ResidentRowCount | public/trace-view-core.ts:231-239 | The loop counts every head and row |
| TracePanelLaws.RunKeepsInv | public/trace-panel.ts:85-160 | In every run the pending request fits the window it was made for, the one armed timer is its own, and the window is good |
| TracePanelLaws.PagingSafety | public/trace-panel.ts:474-521 | In every run an untrimmed window is exactly the log slice between its offsets: records in order, labels and counts as from that slice |
| TracePanelLaws.StepKeepsInv | public/trace-panel.ts:474-550 | Each handler keeps the invariant |
| TracePanelLaws.AppendWindow | public/trace-panel.ts:362-378 | A forward page extends the slice the window claims |
| TracePanelLaws.PrependWindow | public/trace-panel.ts:425-436 | An earlier page extends the slice the window claims |
| TracePanelLaws.TrimNewest | public/trace-panel.ts:341-360 | What a trim leaves is the newest rows of the log, under the head of the one turn that was cut |
| TracePanelIndex.TrimmedSafety | public/trace-panel.ts:341-378 | In every run, trimmed or not, the rows are the newest of the log, the cap holds and, with unique call ids, the call index holds exactly the calls of the resident rows |
| TracePanelLaws.NeverStale | public/trace-view-core.ts:368-380 | In a reachable state no reply is ever stale |
| TracePanelLaws.PrependOnlyUntrimmed | public/trace-view-core.ts:342-380 | A page is prepended only to a window that still has its earliest rows, and joins it exactly |
| TracePanelProgress.FittingReplyGrows | public/trace-panel.ts:474-521 | A reply that is no reset and begins or ends where the pending request asked is taken in: a tail loads the window, an earlier page moves its first offset, a later one its next offset, and the window holds the old and the new records if the cap allows it, and else has lost its earliest |
| TracePanelProgress.UnfittingReplyRestarts | public/trace-panel.ts:498-505 | Any other reply to the pending request starts the window over and asks for its tail |
| TracePanelProgress.OtherReplyIsIgnored | public/trace-panel.ts:489-492 | Every other reply leaves the window and the pending request as they were |
| TracePanelProgress.ReachesEnd | public/trace-panel.ts:466-521 | In every run, when a visible panel is refreshed and each request is answered from the log, the window reaches the log's end within as many rounds as records are missing |
| TracePanelProgress.RefreshAsks | public/trace-panel.ts:131-142 | A visible panel with nothing outstanding asks for the tail of a window not loaded yet, else for what follows it |
| TracePanelProgress.EarlierAskedIff | public/trace-view-core.ts:342-351 | An earlier page is asked for, ending at the window's first offset, iff the window is loaded, has all its rows, is below the cap and does not begin at the log's start |
| TracePanelProgress.ChangeIsAsked | public/trace-panel.ts:523-532 | A change of the shown session is asked about at once, or remembered while a request is outstanding |
| TracePanelProgress.RememberedIsAsked | public/trace-panel.ts:489-521 | What was remembered is asked for as soon as the outstanding request is answered, whatever the answer |
| TracePanelProgress.GivingUp | public/trace-panel.ts:534-540 | A request that fails, or times out (lines 91-94), is given up and the window stays |
| TracePanelProgress.ConnectionAsks | public/trace-panel.ts:542-550 | A lost connection gives up what is outstanding, a new one asks again, and the window stays |
| TracePanels.TracePanel.ApplyTraceResponse | public/trace-panel.ts:474-521 | The handler of a reply takes the model's step; what that step does to the window is `TracePanelProgress.FittingReplyGrows` and its companions |
| TracePanels.TracePanel.RequestEarlierTrace | public/trace-panel.ts:155-160 | An earlier page is asked for exactly when the model says |
| TracePanels.TracePanel.StartSelectedTrace | public/trace-panel.ts:96-112 | A selection clears the request, the refresh mark and the window |
| TracePanels.TracePanel.ReplyOutcomeNow | public/trace-view-core.ts:368-380 | The outcome of a reply against the pending request and the window is the one that decides the step of those laws |
| SchedulerRuns.Conservation | public/render-scheduler.ts:77-142 | In every run, for each sink, what it was made to do followed by its unread queue is what was enqueued since registration, in order; its log is good |
| SchedulerRuns.NoLostWakeup | public/render-scheduler.ts:53-75 | In a run without a stop every sink with unread entries is in flight or a frame is armed |
| SchedulerRuns.StopSleepsUntilWoken | public/render-scheduler.ts:187-192 | After a stop, over any events, a frame is armed at some point iff one of them enqueues something to a sink or drains a batch that leaves something unread; until then no frame fires and a waiting sink keeps its queue and log |
| SchedulerRuns.WokenAt | public/render-scheduler.ts:130-176 | The first such event arms a frame and the scheduler is awake again |
| SchedulerRuns.StopLosesWakeup | public/render-scheduler.ts:187-192 | Stopping right after an enqueue leaves the entry waiting with no frame armed |
| SchedulerRuns.BoundedWait | public/render-scheduler.ts:77-142 | With a fixed order of n sinks, among the next n frames there is one at which a given sink is first in line |
| SchedulerRuns.ServedWithinRound | public/render-scheduler.ts:77-142 | A sink serviceable at every frame is served within n frames and its unread queue strictly shrinks |
| SchedulerRuns.TickServes | public/render-scheduler.ts:77-142 | A frame serves at most budget sinks, each by one service, and leaves the others as they were; which ones is `SchedulerFrames.TickServesExactly` |
| SchedulerFrames.TickServesExactly | public/render-scheduler.ts:77-142 | A frame serves exactly the first budget of its serviceable sinks in line from the pointer: a sink is served iff it is serviceable and fewer than budget serviceable ones stand before it |
| SchedulerFrames.AllServed | public/render-scheduler.ts:77-142 | When no more sinks are serviceable than the budget allows, every one of them is served |
| SchedulerFrames.FrameEnds | public/render-scheduler.ts:140-141 | After a frame another is armed iff some sink is serviceable, and the pointer has moved on by one place |
| SchedulerFrames.RunMarks | public/render-scheduler.ts:57-70 | In every run a sink is marked dirty exactly while it has unread entries |
| SchedulerFrames.UnregisterKeepsOthers | public/render-scheduler.ts:155-163 | A sink that goes takes its place in the order with it; the others keep their order and what they hold |
| SchedulerRuns.RunKeepsInv | public/render-scheduler.ts:144-193 | In every run the order is a duplicate-free listing of the sinks and each sink keeps its invariant |
| SchedulerRuns.StepKeepsAwake | public/render-scheduler.ts:130-141 | Every step but a stop keeps the scheduler awake, and any armed frame wakes it |
| SchedulerLaws.ActionBarrier | public/render-scheduler.ts:89-96 | When an action runs no batch is outstanding, and what the sink has done so far is exactly what was enqueued before that action |
| SchedulerLaws.ActionRunsOnce | public/render-scheduler.ts:89-96 | Two runs in a sink's log are runs of two different queued actions, in the order of the queue |
| SchedulerRuns.ActionsRunInOrder | public/render-scheduler.ts:89-138 | The same in every run, each with no batch outstanding and exactly what was enqueued before it done |
| SchedulerRuns.ActionRanInRun | public/render-scheduler.ts:89-138 | In every run an action has run exactly once as soon as its sink was made to do more than what was enqueued before it |
| SchedulerLaws.ActionHasRun | public/render-scheduler.ts:89-96 | An action has run as soon as the sink was made to do more than what preceded it |
| SchedulerLaws.ServiceKeepsInv | public/render-scheduler.ts:86-138 | A service keeps the sink's stream and invariant and, with a limit of at least one, makes progress |
| SchedulerLaws.TakeKeepsStream | public/render-scheduler.ts:86-112 | Actions run, then text taken, then what is left, is the queue as it was, through chunk splitting and slicing |
| SchedulerLaws.TakeIsBounded | public/render-scheduler.ts:97-109 | A service writes at most the chunk limit, in slices of at most 16384 |
| SchedulerFrames.TakeIsGreedy | public/render-scheduler.ts:89-112 | A service takes as much as it may: what is left begins with an action held back by text taken in this frame, or with text there is no room for |
| SchedulerFrames.TakeCutsOnlyLong | public/render-scheduler.ts:97-111 | An entry is cut only if it alone is longer than the chunk limit and nothing was taken before it, and then the chunk is full |
| SchedulerLaws.SlicesKeepText | public/render-scheduler.ts:31-37 | Slicing keeps the text and respects the slice size |
| SchedulerFrames.SlicesAreFull | public/render-scheduler.ts:31-37 | Every slice of a text but the last has 16384 units |
| RenderScheduler.AppendWriteSlices | public/render-scheduler.ts:31-37 | The slicing loop appends exactly the slices of the entry |
| RenderScheduler.TerminalSink.TakeWrites | public/render-scheduler.ts:86-112 | The reading loop with its cursor takes what the model takes and logs the actions it runs |
| RenderScheduler.TerminalSink.Service | public/render-scheduler.ts:86-138 | One service with clearing and compaction of the queue is the model's service |
| RenderScheduler.Scheduler.Tick | public/render-scheduler.ts:77-142 | A frame over the map of sink objects is the model's frame, the one those laws are about |
| RenderScheduler.Scheduler.Unregister | public/render-scheduler.ts:155-163 | The sink leaves the map and the order, and the pointer is put back when it points past the end |
| RenderScheduler.Scheduler.Drained | public/render-scheduler.ts:130-137 | The callback of a sink that is gone changes nothing; otherwise it is the model's drain |
| ReplayLogModel.AnswerIsExact | server/control-replay-core.ts:50-55 | For a cursor of at least zero the answer is in order the held messages above it, and it says evicted iff one above it was dropped |
| ReplayLogModel.StampDescribes | server/control-replay-core.ts:41-48 | The ring stays the end of the history, within its size, with the last dropped number remembered |
| ReplayLogModel.EvictDescribes | server/control-replay-core.ts:30-39 | The same for an eviction; what it leaves is `ReplayRetention.EvictKeepsExactly` |
| ReplayLogModel.EvictKeepsYoung | server/control-replay-core.ts:30-39 | With a clock that never goes back, nothing kept is older than the limit |
| ReplayRetention.EvictKeepsExactly | server/control-replay-core.ts:30-39 | With times that never go back an eviction leaves an end of the ring, and an entry stays iff it is at most the maximal age old and fewer than the maximal number of entries follow it |
| ReplayRetention.HeldIff | server/control-replay-core.ts:30-55 | In every run in which the clock does not go back, a replayable broadcast is held iff fewer than the maximal number of them followed it and no sweep came when it was too old |
| ReplayRetention.HistoryIsKept | server/control-replay-core.ts:15-48 | What is kept are the notify, session-error and post-turn-result broadcasts, each numbered by its place among all broadcasts |
| ReplayLogs.ReplayLog.EvictStale | server/control-replay-core.ts:30-39 | The two shifting loops drop the stale front and the excess, as the model's eviction does |
| ReplayLogs.ReplayLog.Stamp | server/control-replay-core.ts:41-48 | Stamping gives the next number and keeps the log describing its history |
| ReplayLogs.ReplayLog.EntriesSince | server/control-replay-core.ts:50-55 | The filter loop gives the model's answer to any cursor, odd ones included |
| ControlChannel.HandledRises | public/control-ws.ts:92-124 | Over a whole run, across reconnects and cursor resets, the numbers handed to the client strictly rise |
| ControlChannel.DeliverKeepsInv | public/control-ws.ts:107-112 | A numbered message at the head of the socket is always above the cursor and is handled |
| ControlLosses.AcceptCompleteIff | server/control-handlers.ts:1097-1146 | Accepting a connection puts everything missed after a given number on the wire iff the client had a cursor and nothing above it and after that number was dropped, or nothing was missed |
| ControlLosses.AcceptAnswer | server/control-handlers.ts:1141-1146 | The replay covers every entry of the history above the cursor and after a given number iff none of those was dropped |
| ControlLosses.StepKeepsNoHole | public/control-ws.ts:107-123 | Nothing is skipped while everything missing is on its way |
| ControlRuns.NothingLostIff | server/control-handlers.ts:1141-1146 | Over any run, however often the socket drops, every replayable broadcast after a given number is handled or on its way all along iff every step is careful: replayable broadcasts go out on an open socket, and each connection accepted has a cursor above which none of them was dropped, or nothing to miss |
| ControlRuns.NothingLostFromNowIff | server/control-handlers.ts:1141-1146 | The same from any moment of any run, for what is broadcast from then on |
| ControlRuns.StepLosesNothingIff | public/control-ws.ts:79-124 | From a moment at which nothing is lost, a step loses something iff it is careless |
| ControlRuns.DrainedMeansHandled | public/control-ws.ts:79-124 | When a careful run has drained its socket the client has handled every replayable broadcast since it began |
| ControlRuns.HandledFromNow | public/control-ws.ts:79-124 | From any moment of any run, a careful run that drains has handled every replayable broadcast made from then on |
| ControlRuns.SnapshotLosesReplay | public/control-ws.ts:79-107 | A connection that breaks right after its unnumbered snapshot is followed by one without a cursor: what is broadcast in between is never queued though the server holds it |
| ControlRuns.ReconnectRecovers | public/control-ws.ts:79-112 | A client that reconnects with a cursor while the server still holds everything after it is sent a snapshot and then everything it missed |
| ControlRuns.CursorAfter | public/control-ws.ts:107-112 | A numbered message moves the cursor to its number, an unnumbered snapshot sets it to zero, and no other moves it |
| ControlClients.ControlClient.OnMessage | public/control-ws.ts:92-124 | Cursor, requests and handler as in the model; a message is ignored iff it is numbered and not above the cursor |
| OscTitleLaws.ChunkingIndependence | detection/osc-title-source.ts:76-89 | While no buffer is cut, the titles processed and the text retained are those of parsing the whole stream, however it is chunked |
| OscTitleCuts.CutLosesNothingIff | detection/osc-title-source.ts:78-86 | A cut of the buffer loses no title, whatever follows, iff no title starts before the cut |
| OscTitleCuts.ChunkingIndependenceIff | detection/osc-title-source.ts:76-89 | Feeding in chunks finds, with whatever follows, exactly the titles of parsing the whole stream iff no cut of the run had a start marker in the part cut off |
| OscTitleCuts.RunFindsLess | detection/osc-title-source.ts:76-89 | Feeding in chunks never finds more than parsing the stream at once, and less, as soon as a bell comes, once a cut did harm |
| OscTitleCuts.HarmlessCutsLoseNothing | detection/osc-title-source.ts:76-89 | After harmless cuts the titles processed are those of the stream so far |
| OscTitleCuts.AnyTwoSplitsAgree | detection/osc-title-source.ts:76-89 | Two ways of cutting one stream give the same titles, and if neither buffer was cut the same retained text |
| OscTitleLaws.FoundStays | detection/osc-title-source.ts:37-48 | More input never changes a title already complete, also with a terminator cut across chunks |
| OscTitleLaws.PendingIsUnfinished | detection/osc-title-source.ts:76-89 | In every run what is retained holds no complete title and at most 8192 units |
| OscTitleLaws.StreamRoundTrip | detection/osc-title-source.ts:37-48 | Reading back titles written with either terminator, among any marker-free text, gives exactly those titles |
| OscTitleCuts.WrittenTitlesArrive | detection/osc-title-source.ts:76-89 | The same through any chunking whose cuts are harmless |
| OscTitleLaws.CutLosesTitle | detection/osc-title-source.ts:78-79 | A stream on which a cut does harm: a complete title followed by enough marker-free text in one chunk |
| OscTitleSources.OscTitleSource.Feed | detection/osc-title-source.ts:76-89 | Feeding a chunk processes the model's titles in order and retains the model's rest |
| OscTitleSources.OscTitleSource.ProcessTitle | detection/osc-title-source.ts:91-152 | The classifier branches, with the context last set, and the latch fields take the model's step |
| OscTitleSources.OscTitleSource.SetContext | detection/osc-title-source.ts:188-191 | What the classifier is told of the session is replaced by what is said anew, until destroyed |
| TitleLatchLaws.ArmedIff | detection/osc-title-source.ts:129-163 | Until destroyed, the timer is armed iff the last kind is idle-pending, iff the history has a spinner since the last reset, a quiet ready title and no ready emitted since the last other title |
| TitleLatchLaws.ReadyIff | detection/osc-title-source.ts:154-163 | As time passes ready is emitted iff the history calls for it by then, and exactly at its time |
| TitleLatchLaws.ReadyIsEarned | detection/osc-title-source.ts:108-163 | Every ready comes exactly the stabilization time after a ready title with only ignored titles in between, after a spinner with no reset since |
| TitleLatchLaws.NeverReadyTwice | detection/osc-title-source.ts:129-163 | Between resets ready is never emitted twice without another kind of title in between |
| TitleLatchLaws.ProcessTitlesKeepInv | detection/osc-title-source.ts:100-152 | Titles read from the stream keep all of that |
| TitleSignals.TitleIsSeen | detection/osc-title-source.ts:91-104 | A title that is not blank is logged at once with its first code point shown and the kind it has: the adapter's own word for it, else a spinner before an idle glyph before plain letters |
| TitleSignals.TitleIsToldIff | detection/osc-title-source.ts:106-152 | In every run a working, awaiting-input or unknown title is followed at once by its signal iff that kind did not stand already, by position in the history; and each such signal comes right after its title |
| TitleSignals.HoldsLastShown | detection/osc-title-source.ts:108-152 | In every run the latch holds the glyph of the last title since the last reset that was not to be ignored |
| TitleSignals.LastSaidStands | detection/osc-title-source.ts:188-191 | The context is what was said last, however often nothing was said since |
| StatusLaws.ReadyIsSettled | detection/status-source.ts:84-109 | Every emitted ready comes exactly one conflict window after the first of its batch, nothing having ended the batch, and is its first high-confidence ready if any, else the first |
| StatusLaws.OthersAreImmediate | detection/status-source.ts:78-115 | Every other emitted status repeats the signal just ingested; that it is emitted is `StatusSignals.UrgentIsEmittedIff` |
| StatusLaws.RepeatsAreRare | detection/status-source.ts:118-135 | Between resets consecutive statuses of one signal are a dedup window apart or strictly rise in confidence |
| StatusLaws.PendingIff | detection/status-source.ts:84-145 | Until destroyed, a ready is pending iff the history holds a batch neither ended nor closed, and its deadline is one window after the first |
| StatusSignals.ToldIsLogged | detection/status-source.ts:67-71 | A signal with a name, told before the merger is destroyed, is logged at once as it came, with its missing time and confidence filled in; one without is not |
| StatusSignals.UrgentIsEmittedIff | detection/status-source.ts:73-135 | In every run a working, resume, awaiting-input, session-start or session-end signal is followed at once by its status iff the last status since the reset has not the same signal, less than a dedup window before and at least as sure; an unknown one by the word that it is unknown |
| StatusSignals.ReadyIsEmittedIff | detection/status-source.ts:96-135 | In every run each window that closes is followed at once by the chosen ready of its batch iff that is not held back in the same way |
| StatusSignals.WindowClosesIff | detection/status-source.ts:84-108 | As time passes a batch that stands is closed as soon as a conflict window has passed since its first ready, and no sooner |
| StatusLaws.RunKeepsInv | detection/status-source.ts:67-150 | In every run the pending fields and the last status are those the history gives |
| StatusSources.StatusSource.Ingest | detection/status-source.ts:67-116 | The branches of ingest take the model's step, which logs and answers each signal as `StatusSignals` says |
| StatusSources.StatusSource.OnTimer | detection/status-source.ts:96-107 | The timer closes the window and resolves the pending ready |
| ActivityStream.ShownIsBatch | public/visions-view-core.ts:606-617 | From a list without duplicates, over any messages, the list shown is the head of one merge of everything received |
| ActivityStream.ShownIff | public/visions-view-core.ts:600-617 | An event is shown iff, over everything received, it is the latest with its number and fewer different numbers than the cap lie above it |
| ActivityStream.MergeMeans | public/visions-view-core.ts:613-616 | One merge lists, newest first, exactly the latest event of each number |
| ActivityStream.CappedUpsertAll | public/visions-view-core.ts:600-604 | Cutting the list before merging never changes the head of the result |
| ActivityStream.ApplyActivityMessage | public/visions-view-core.ts:606-617 | The two loops into the map, the sort and the cut |
| ActivityStream.EventsOfMessage | public/visions-view-core.ts:577-585 | The events are, in order, what the entries that normalize normalize to, each such entry once and nothing else |
| ActivityStream.NormalizedIff | public/visions-view-core.ts:557-575 | An entry normalizes iff it is a record with a finite number and a summary that is not blank; its number is rounded down, its source and kind are its own or empty, a time above zero is kept, and its empty root or session becomes missing |
| UpdateLaneLaws.AtMostOneCheck | server/backend-update.ts:167-199 | In every run at most one check is outstanding, the lane holds one exactly then, and a refresh is owed only then |
| UpdateLaneLaws.NothingAfterStop | server/backend-update.ts:231-237 | Nothing is broadcast after a stop, whatever led to it and whatever follows |
| UpdateLaneLaws.RecordedIsConfigured | server/backend-update.ts:148-219 | In every run a recorded status has the configured channel iff the lane is not stopped or the channel configured now is the one configured at the stop; a running check for another channel is always followed by a refresh |
| UpdateLaneLaws.SentIsConfigured | server/backend-update.ts:117-153 | Whatever is broadcast has the channel configured at that moment |
| UpdateLaneLaws.RefreshFollows | server/backend-update.ts:189-196 | In every run, when a check that a change overtook finishes, one for the configured channel starts, unless stopped |
| UpdateLaneLaws.StopLeavesStatus | server/backend-update.ts:205-237 | In every run, a change of channel right after a stop leaves the recorded status of the old channel |
| UpdateLaneLaws.AnswerIsToldIff | server/backend-update.ts:181-188 | In every run the answer of the running check is recorded and broadcast at once, as what the check found or as a failure, iff the lane is not stopped and its channel is still configured; otherwise neither changes |
| UpdateLaneLaws.RefreshTellsIff | server/backend-update.ts:113-132 | In every run a refresh broadcasts what is recorded iff the lane is not stopped and the signature differs from that of the last broadcast |
| UpdateLaneLaws.ChangeIsChecked | server/backend-update.ts:205-219 | In every run a change of channel forgets the status, and a check of the new channel is running or owed at once |
| UpdateLaneLaws.CheckIsRunning | server/backend-update.ts:167-170 | Whoever asks for a check gets the one that is running, or a new one of the configured channel |
| UpdateLaneLaws.StopAborts | server/backend-update.ts:231-237 | A stop aborts the running check and forgets the owed refresh, and changes nothing else |
| UpdateLanes.UpdateLane.OnFinally | server/backend-update.ts:189-196 | The final callback clears the check and starts the owed refresh |
| UpdateLanes.UpdateLane.ApplySettings | server/backend-update.ts:205-219 | A change clears the status and either marks the refresh and aborts, or starts a check |
| SettingsLaws.SaveIsThreeWayMerge | public/settings-view-core.ts:179-226 | Laid over the last payload, what is sent puts every changed setting at its outgoing value and leaves every path apart from those as the payload has it |
| SettingsLaws.CollectOverlays | public/settings-view-core.ts:179-220 | Laying the collected blocks over the payload is writing the changed settings, and nothing else, into it |
| SettingsLaws.EditSurvivesBroadcasts | public/settings-view-core.ts:152-226 | A setting of any kind edited before any number of payloads is saved as it would be over the last payload at the time of the edit, in wire form, and every path apart from the changes keeps what that payload has |
| SettingsPickers.PickerSaves | public/settings-view-core.ts:188-216 | A changed project picker is saved with exactly what is checked, and what of the selection it showed before the edit the last payload offers no choice for |
| SettingsPickers.HiddenProjectsStayIff | public/settings-view-core.ts:188-216 | No project the last payload stores without offering it is lost by the save iff each is checked or was in the selection before the edit |
| SettingsPickers.LateProjectIsDropped | public/settings-view-core.ts:160-216 | A project stored by another page after the edit, and offered nowhere, is dropped by the save |
| SettingsPickers.UnionHas | public/settings-projects-core.ts:1-10 | The union holds what is checked and what was stored that could not be shown |
| SettingsPickers.UnionDistinct | public/settings-projects-core.ts:1-10 | The checked projects come first as they were, and no project is listed twice that was not checked twice |
| SettingsPickers.OfferedIff | public/settings-view-core.ts:189-190 | A project counts as offered iff some choice of the payload has it as a text id |
| SettingsLaws.ShowsItself | public/settings-view-core.ts:127-147 | Every editable setting with a path of its own shows its own value |
| SettingsLaws.ShownValue | public/settings-view-core.ts:137-146 | A secret shows the mask or nothing, as the flag says and whatever secret the payload holds; a plain setting shows the payload's value or its default |
| SettingsLaws.ChangedStaysChanged | public/settings-view-core.ts:152-186 | Over any number of payloads that do not force its section, a setting is among those to send iff it was before |
| SettingsLaws.RehydrateKeepsDirty | public/settings-view-core.ts:152-177 | A section that is not forced is dirty afterwards iff it was before |
| SettingsLaws.RehydrateKeepsEdits | public/settings-view-core.ts:152-177 | Each edited setting keeps both of its values |
| SettingsLaws.FirstPayloadIsClean | public/settings-view-core.ts:160-186 | A page that has just taken in its first payload has no dirty section and nothing to save |
| SettingsLaws.ForcedIsClean | public/settings-view-core.ts:163-175 | A path no kept section shows takes the new payload's value on both sides |
| SettingsWire.SentIff | public/settings-view-core.ts:180-185 | A setting is sent iff it can be edited, is no preference, differs from what it showed, and is not a secret that still shows its mask |
| SettingsWire.NumberIsNullIff | public/settings-view-core.ts:108-113 | A number is sent as null iff it is blank where it may be, or at most zero, minus zero and minus infinity included, where that means none; otherwise as the number itself |
| SettingsWire.WireRoundTrip | public/settings-view-core.ts:101-121 | A stored value that the conversions of texts and numbers keep is, shown and sent untouched, what was stored |
| SettingsWire.RetentionIsSavedTwice | public/settings-view-core.ts:216-219 | A changed retention setting is saved under both names if the payload has the second |
| SettingsWire.FlagIsNotSent | public/settings-view-core.ts:221-224 | The flag of a stored secret is never among what is sent, unless a list stands in its way |
| SettingsWire.ForcedShowsLatest | public/settings-view-core.ts:163-176 | A section told to start over shows the new payload on both sides |
| SettingsPaths.SetLeavesOthersIff | public/settings-view-core.ts:60-68 | A write leaves every unrelated path alone iff no list stands in the way, but for one that holds nothing where the path goes on with its length |
| SettingsPaths.SetThenGet | public/settings-view-core.ts:41-68 | Reading back a written path gives the value |
| SettingsPaths.SetAllSets | public/settings-view-core.ts:194-216 | Writes apart from each other all end up in place |
| SettingsPaths.DeleteLeavesOthers | public/settings-view-core.ts:50-58 | A delete leaves every unrelated path alone |
| SettingsWire.DeletedIsGone | public/settings-view-core.ts:50-58 | A deleted path reads as nothing, unless a list stands in its way |
| SettingsValues.ValuesEqualIff | public/settings-view-core.ts:87-99 | Comparing a value with any other says yes exactly to those that are the same up to lists written as objects, iff no object in the value holds its own size as length and else only indices below it |
| SettingsValues.FlatValuesEqualIff | public/settings-view-core.ts:87-99 | On plain values and lists of them, all that a setting displays, the comparison is equality |
| SettingsValues.LengthLooksLikeList | public/settings-view-core.ts:93-98 | An object with one key named length compares equal to a list of one item, and not the other way round |
| SettingsView.HydrateFromSettings | public/settings-view-core.ts:127-150 | Exactly the paths of editable settings are shown, each setting with a path of its own shows its value, and a secret only the mask or nothing |
| SettingsView.RehydratePreservingDirtySections | public/settings-view-core.ts:152-177 | The loop over sections keeps exactly the dirty ones that are not forced |
| SettingsView.CollectDirtyBlocks | public/settings-view-core.ts:179-226 | The loops over changed settings and secrets build the model's blocks |

## Left out

- Offsets are positions in a sequence of records; the source uses byte offsets of a log file. The server's reader, with its notices for skipped or unreadable records, is not part of this model: a reply is any slice of the log, or a reset.
- Ids and names of tool calls are non-empty, as the record schema demands; schema parsing itself is left out.
- Turns, rows, sinks' texts and settings values are values, so sharing of one object between two places is not captured; the turns a prepend reports do show the relabelling that follows, as in the source.
- The trace panel's rendering state (visible, stale, scroll position, load-earlier control, file path, session choice) is not in the panel model; the rendered list is related to the grouping over runs of appends, prepends and trims in `TraceRenderedView`.
- Terminal writes are a log. Action callbacks and write callbacks that call back into the scheduler, and registrations from inside a frame, are not modelled; frames are fired one at a time.
- Timers fire exactly at their deadlines on an explicit clock; late firing is not modelled. Listeners that call back into a source while it emits are not modelled.
- One server run: a restart, which numbers from the beginning again, is not modelled. A broadcast may or may not be handed to a socket; why the send decision drops it is not modelled.
- Request timeouts, retry delays, page tokens and the liveness probe of the control channel.
- SettingsPaths.DeleteAt: does not follow a path through a list, where the source could delete inside a list's items; no flag of a stored secret has such a path.
- The wording of a caption beyond what `TraceHeads` says (sizes in bytes, details of a call's input, command names) comes from parameters.
- The characters a title may begin with before it is shown are a list of blank code units, written out from the language's definition of white space.
- A status signal whose source or confidence is a name every object inherits, such as `constructor`, for which the source's lookup tables answer with a function.
- SettingsModel.WireValue: number parsing, trimming, joining and splitting of texts are parameters, because their details do not matter to the merge.
- A write by path is a recursive function; the source walks a cursor and changes nested objects in place.
- The update lane's log line about a newer version, the projection of a status for display, and the timer that starts checks; the signature that decides a refresh is a parameter.
- The configuration takes new settings and the update lane is told in one call (server/backend.ts:251-253); a change of channel it is not told of does not occur and is not modelled.
- Notification transitions, outbox and branch planning, viewer sizes, formatting of numbers, dates and labels, the DOM, and everything of the repository outside the cores above.
