/**
 What the terminal write scheduler promises in every run: nothing enqueued is lost, repeated or
 reordered; an action waits for what came before it; no sink is forgotten or starved.
 */
module SchedulerLaws {
  import opened SchedulerModel
  import opened Sequences

  // ---------------------------------------------------------------- the stream of a sink

  /** A queue read as one stream of characters and actions. */
  datatype Symbol = Ch(c: char) | Act(id: nat)

  function TextSymbols(text: string): (symbols: seq<Symbol>)
    ensures |symbols| == |text|
    ensures forall i :: 0 <= i < |text| ==> symbols[i] == Ch(text[i])
  {
    seq(|text|, i requires 0 <= i < |text| => Ch(text[i]))
  }

  function EntrySymbols(entry: Entry): seq<Symbol> {
    match entry
    case Text(data) => TextSymbols(data)
    case Action(id) => [Act(id)]
  }

  function Stream(entries: seq<Entry>): seq<Symbol> {
    if entries == [] then [] else EntrySymbols(entries[0]) + Stream(entries[1..])
  }

  function Joined(slices: seq<string>): string {
    if slices == [] then "" else slices[0] + Joined(slices[1..])
  }

  function OutSymbols(out: Out): seq<Symbol> {
    match out
    case Wrote(slices) => TextSymbols(Joined(slices))
    case Ran(id) => [Act(id)]
    case Drained => []
  }

  function OutStream(log: seq<Out>): seq<Symbol> {
    if log == [] then [] else OutStream(log[..|log| - 1]) + OutSymbols(log[|log| - 1])
  }

  lemma {:induction false} StreamConcat(a: seq<Entry>, b: seq<Entry>)
    ensures Stream(a + b) == Stream(a) + Stream(b)
  {
    if a == [] {
      assert a + b == b;
    } else {
      assert (a + b)[1..] == a[1..] + b;
      StreamConcat(a[1..], b);
    }
  }

  lemma {:induction false} OutSnoc(log: seq<Out>, out: Out)
    ensures OutStream(log + [out]) == OutStream(log) + OutSymbols(out)
  {
    hide OutSymbols;
    assert (log + [out])[..|log|] == log;
  }

  lemma {:induction false} OutConcat(a: seq<Out>, b: seq<Out>)
    ensures OutStream(a + b) == OutStream(a) + OutStream(b)
  {
    hide OutSymbols;
    if b == [] {
      assert a + b == a;
    } else {
      var init, last := b[..|b| - 1], b[|b| - 1];
      OutConcat(a, init);
      OutSnoc(a + init, last);
      assert a + init + [last] == a + b;
      Assoc(OutStream(a), OutStream(init), OutSymbols(last));
    }
  }

  lemma {:induction false} JoinedConcat(a: seq<string>, b: seq<string>)
    ensures Joined(a + b) == Joined(a) + Joined(b)
  {
    if a == [] {
      assert a + b == b;
    } else {
      assert (a + b)[1..] == a[1..] + b;
      JoinedConcat(a[1..], b);
      assert Joined(a + b) == a[0] + (Joined(a[1..]) + Joined(b));
    }
  }

  /** Slicing keeps the text and respects the slice size. */
  lemma {:induction false} SlicesKeepText(text: string)
    ensures Joined(Slices(text)) == text
    ensures forall slice :: slice in Slices(text) ==> |slice| <= WRITE_SLICE
    decreases |text|
  {
    if |text| <= WRITE_SLICE {
      assert Joined([text]) == text + Joined([]);
    } else {
      SlicesKeepText(text[WRITE_SLICE..]);
      assert Slices(text)[1..] == Slices(text[WRITE_SLICE..]);
      assert text[..WRITE_SLICE] + text[WRITE_SLICE..] == text;
    }
  }

  // ---------------------------------------------------------------- one service

  ghost predicate NoEmptyText(entries: seq<Entry>) {
    forall i :: 0 <= i < |entries| ==> entries[i] != Text("")
  }

  function ActSymbols(ids: seq<nat>): (symbols: seq<Symbol>)
    ensures |symbols| == |ids|
    ensures forall i :: 0 <= i < |ids| ==> symbols[i] == Act(ids[i])
  {
    seq(|ids|, i requires 0 <= i < |ids| => Act(ids[i]))
  }

  /** Once text is taken, no action is. */
  lemma {:induction false} NoActionAfterText(unread: seq<Entry>, consumed: nat, maxChunk: nat)
    requires consumed > 0
    ensures Take(unread, consumed, maxChunk).ran == []
    decreases |unread|
  {
    if unread != [] && unread[0].Text? && consumed + |unread[0].data| <= maxChunk {
      NoActionAfterText(unread[1..], consumed + |unread[0].data|, maxChunk);
    }
  }

  lemma {:induction false} TakenText(data: string, writes: seq<string>, rest: seq<Symbol>, tail: seq<Symbol>)
    requires TextSymbols(Joined(writes)) + rest == tail
    ensures TextSymbols(Joined(Slices(data) + writes)) + rest == TextSymbols(data) + tail
  {
    SlicesKeepText(data);
    JoinedConcat(Slices(data), writes);
    assert Joined(Slices(data) + writes) == data + Joined(writes);
    assert TextSymbols(data + Joined(writes)) == TextSymbols(data) + TextSymbols(Joined(writes));
  }

  lemma {:induction false} SplitText(data: string, tail: seq<Entry>, n: nat)
    requires n <= |data|
    ensures TextSymbols(Joined(Slices(data[..n]))) + Stream([Text(data[n..])] + tail) == TextSymbols(data) + Stream(tail)
  {
    SlicesKeepText(data[..n]);
    assert ([Text(data[n..])] + tail)[1..] == tail;
    assert TextSymbols(data[..n]) + (TextSymbols(data[n..]) + Stream(tail)) == TextSymbols(data) + Stream(tail);
  }

  lemma {:induction false} NothingTaken()
    ensures Joined([]) == "" && TextSymbols("") == [] && ActSymbols([]) == []
  {
  }

  /** Actions taken, then text taken, then the rest, is the queue as it was. */
  lemma {:induction false} TakeKeepsStream(unread: seq<Entry>, consumed: nat, maxChunk: nat)
    requires NoEmptyText(unread)
    ensures
      var t := Take(unread, consumed, maxChunk);
      ActSymbols(t.ran) + (TextSymbols(Joined(t.writes)) + Stream(t.rest)) == Stream(unread)
    decreases |unread|
  {
    hide Slices, Joined;
    NothingTaken();
    if unread != [] {
      match unread[0]
      case Action(id) =>
        if consumed == 0 {
          var later := Take(unread[1..], consumed, maxChunk);
          TakeKeepsStream(unread[1..], consumed, maxChunk);
          assert ActSymbols([id] + later.ran) == [Act(id)] + ActSymbols(later.ran);
          Assoc([Act(id)], ActSymbols(later.ran), TextSymbols(Joined(later.writes)) + Stream(later.rest));
        }
      case Text(data) =>
        NoActionAfterText(unread[1..], consumed + |data|, maxChunk);
        if consumed + |data| <= maxChunk {
          var later := Take(unread[1..], consumed + |data|, maxChunk);
          TakeKeepsStream(unread[1..], consumed + |data|, maxChunk);
          TakenText(data, later.writes, Stream(later.rest), Stream(unread[1..]));
        } else if consumed == 0 {
          SplitText(data, unread[1..], maxChunk);
        }
    }
  }

  /** One service writes at most maxChunk characters in slices of at most WRITE_SLICE. */
  lemma {:induction false} TakeIsBounded(unread: seq<Entry>, consumed: nat, maxChunk: nat)
    requires consumed <= maxChunk
    ensures consumed + |Joined(Take(unread, consumed, maxChunk).writes)| <= maxChunk
    ensures forall slice :: slice in Take(unread, consumed, maxChunk).writes ==> |slice| <= WRITE_SLICE
    decreases |unread|
  {
    hide Slices, Joined;
    NothingTaken();
    if unread != [] {
      match unread[0]
      case Action(id) =>
        TakeIsBounded(unread[1..], consumed, maxChunk);
      case Text(data) =>
        if consumed + |data| <= maxChunk {
          TakeIsBounded(unread[1..], consumed + |data|, maxChunk);
          SlicesKeepText(data);
          JoinedConcat(Slices(data), Take(unread[1..], consumed + |data|, maxChunk).writes);
        } else if consumed == 0 {
          SlicesKeepText(data[..maxChunk]);
        }
    }
  }

  /** A service with nothing to write has run every entry; what stays unread holds no empty text. */
  lemma {:induction false} TakeLeaves(unread: seq<Entry>, consumed: nat, maxChunk: nat)
    requires NoEmptyText(unread) && consumed <= maxChunk
    ensures NoEmptyText(Take(unread, consumed, maxChunk).rest)
    ensures consumed == 0 && Take(unread, consumed, maxChunk).writes == [] ==> Take(unread, consumed, maxChunk).rest == []
    decreases |unread|
  {
    if unread != [] {
      match unread[0]
      case Action(id) =>
        TakeLeaves(unread[1..], consumed, maxChunk);
      case Text(data) =>
        if consumed + |data| <= maxChunk {
          TakeLeaves(unread[1..], consumed + |data|, maxChunk);
        }
    }
  }

  /** A service of a queue with something in it takes at least one symbol. */
  lemma {:induction false} TakeProgresses(unread: seq<Entry>, maxChunk: nat)
    requires NoEmptyText(unread) && unread != [] && maxChunk >= 1
    ensures |Stream(Take(unread, 0, maxChunk).rest)| < |Stream(unread)|
  {
    hide Slices, Stream;
    var t := Take(unread, 0, maxChunk);
    TakeKeepsStream(unread, 0, maxChunk);
    if unread[0].Text? {
      var data := unread[0].data;
      if |data| <= maxChunk {
        SlicesKeepText(data);
        JoinedConcat(Slices(data), Take(unread[1..], |data|, maxChunk).writes);
      } else {
        SlicesKeepText(data[..maxChunk]);
      }
    }
  }

  // ---------------------------------------------------------------- the invariant of a sink

  /** A batch was written and its drain callback has not come. */
  predicate Outstanding(log: seq<Out>) {
    log != [] &&
    match log[|log| - 1]
    case Wrote(_) => true
    case Drained => false
    case Ran(_) => Outstanding(log[..|log| - 1])
  }

  /** A batch within its limits: at most maxChunk characters, in slices of at most WRITE_SLICE. */
  ghost predicate SmallBatch(slices: seq<string>, maxChunk: nat) {
    |Joined(slices)| <= maxChunk && forall slice :: slice in slices ==> |slice| <= WRITE_SLICE
  }

  /** A batch is written, or an action run, only when no batch is outstanding; a drain answers a batch. */
  ghost predicate MayFollow(log: seq<Out>, out: Out, maxChunk: nat) {
    (out.Drained? <==> Outstanding(log)) && (out.Wrote? ==> SmallBatch(out.slices, maxChunk))
  }

  ghost predicate GoodLog(log: seq<Out>, maxChunk: nat) {
    log == [] || (GoodLog(log[..|log| - 1], maxChunk) && MayFollow(log[..|log| - 1], log[|log| - 1], maxChunk))
  }

  /** The same at every position of the log. */
  lemma {:induction false} GoodLogAt(log: seq<Out>, maxChunk: nat, i: nat)
    requires GoodLog(log, maxChunk) && i < |log|
    ensures MayFollow(log[..i], log[i], maxChunk)
    decreases |log|
  {
    if i < |log| - 1 {
      GoodLogAt(log[..|log| - 1], maxChunk, i);
      assert log[..|log| - 1][..i] == log[..i];
    }
  }

  ghost predicate SinkInv(s: Sink, maxChunk: nat) {
    && OutStream(s.log) + Stream(s.unread) == Stream(s.accepted)
    && (s.inFlight <==> Outstanding(s.log))
    && GoodLog(s.log, maxChunk)
    && NoEmptyText(s.unread)
    && (s.unread != [] ==> s.dirty)
  }

  lemma {:induction false} LogGrows(log: seq<Out>, out: Out, maxChunk: nat)
    requires GoodLog(log, maxChunk) && MayFollow(log, out, maxChunk)
    ensures GoodLog(log + [out], maxChunk)
    ensures OutStream(log + [out]) == OutStream(log) + OutSymbols(out)
    ensures Outstanding(log + [out]) <==> out.Wrote? || (out.Ran? && Outstanding(log))
  {
    assert (log + [out])[..|log|] == log;
  }

  lemma {:induction false} RunsGood(log: seq<Out>, ids: seq<nat>, maxChunk: nat)
    requires GoodLog(log, maxChunk) && !Outstanding(log)
    ensures GoodLog(log + RanAll(ids), maxChunk) && !Outstanding(log + RanAll(ids))
    decreases |ids|
  {
    if ids == [] {
      assert log + RanAll(ids) == log;
    } else {
      var init := ids[..|ids| - 1];
      RunsGood(log, init, maxChunk);
      assert (log + RanAll(ids))[..|log| + |init|] == log + RanAll(init);
    }
  }

  lemma {:induction false} RanStream(ids: seq<nat>)
    ensures OutStream(RanAll(ids)) == ActSymbols(ids)
    decreases |ids|
  {
    if ids != [] {
      var init := ids[..|ids| - 1];
      RanStream(init);
      assert RanAll(ids)[..|init|] == RanAll(init);
    }
  }

  lemma {:induction false} RunsGrow(log: seq<Out>, ids: seq<nat>, maxChunk: nat)
    requires GoodLog(log, maxChunk) && !Outstanding(log)
    ensures GoodLog(log + RanAll(ids), maxChunk) && !Outstanding(log + RanAll(ids))
    ensures OutStream(log + RanAll(ids)) == OutStream(log) + ActSymbols(ids)
  {
    RunsGood(log, ids, maxChunk);
    RanStream(ids);
    OutConcat(log, RanAll(ids));
  }

  /** The log after one service: the actions, then the batch if there is text. */
  lemma {:induction false} ServiceLog(log: seq<Out>, t: Taken, maxChunk: nat)
    requires GoodLog(log, maxChunk) && !Outstanding(log)
    requires SmallBatch(t.writes, maxChunk)
    ensures
      var after := log + RanAll(t.ran) + (if t.writes == [] then [] else [Wrote(t.writes)]);
      && GoodLog(after, maxChunk)
      && OutStream(after) == OutStream(log) + ActSymbols(t.ran) + TextSymbols(Joined(t.writes))
      && (Outstanding(after) <==> t.writes != [])
  {
    var ran := log + RanAll(t.ran);
    RunsGrow(log, t.ran, maxChunk);
    if t.writes == [] {
      assert ran + [] == ran;
      assert TextSymbols("") == [];
    } else {
      LogGrows(ran, Wrote(t.writes), maxChunk);
    }
  }

  lemma {:induction false} RejoinStream(
      done: seq<Symbol>, taken: seq<Symbol>, text: seq<Symbol>, rest: seq<Symbol>, unread: seq<Symbol>)
    requires taken + (text + rest) == unread
    ensures done + taken + text + rest == done + unread
  {
    assert done + taken + text + rest == done + (taken + (text + rest));
  }

  /** A service keeps the sink's invariant and, if characters may be written at all, makes progress. */
  lemma {:induction false} ServiceKeepsInv(s: Sink, maxChunk: nat)
    requires SinkInv(s, maxChunk) && Serviceable(s)
    ensures SinkInv(Service(s, maxChunk), maxChunk)
    ensures maxChunk >= 1 ==> |Stream(Service(s, maxChunk).unread)| < |Stream(s.unread)|
    ensures Service(s, maxChunk).unread != [] ==> Service(s, maxChunk).inFlight
  {
    var t := Take(s.unread, 0, maxChunk);
    TakeIsBounded(s.unread, 0, maxChunk);
    ServiceLog(s.log, t, maxChunk);
    TakeKeepsStream(s.unread, 0, maxChunk);
    TakeLeaves(s.unread, 0, maxChunk);
    if maxChunk >= 1 {
      TakeProgresses(s.unread, maxChunk);
    }
    hide Take, Stream, OutStream, TextSymbols, ActSymbols, Joined, GoodLog;
    RejoinStream(OutStream(s.log), ActSymbols(t.ran), TextSymbols(Joined(t.writes)), Stream(t.rest), Stream(s.unread));
  }

  lemma {:induction false} StreamSnoc(entries: seq<Entry>, entry: Entry)
    ensures Stream(entries + [entry]) == Stream(entries) + EntrySymbols(entry)
  {
    StreamConcat(entries, [entry]);
    assert Stream([entry]) == EntrySymbols(entry) + Stream([]);
  }

  lemma {:induction false} EnqueueKeepsInv(s: Sink, entry: Entry, maxChunk: nat)
    requires SinkInv(s, maxChunk) && entry != Text("")
    ensures SinkInv(s.(unread := s.unread + [entry], dirty := true, accepted := s.accepted + [entry]), maxChunk)
  {
    hide OutStream, Stream, GoodLog, Outstanding, EntrySymbols;
    StreamSnoc(s.unread, entry);
    StreamSnoc(s.accepted, entry);
    Assoc(OutStream(s.log), Stream(s.unread), EntrySymbols(entry));
  }

  lemma {:induction false} NothingOut(out: seq<Symbol>, unread: seq<Symbol>)
    ensures out + [] + unread == out + unread
  {
  }

  lemma {:induction false} DrainKeepsInv(s: Sink, maxChunk: nat)
    requires SinkInv(s, maxChunk) && s.inFlight
    ensures SinkInv(DrainSink(s), maxChunk)
  {
    LogGrows(s.log, Drained, maxChunk);
    NothingOut(OutStream(s.log), Stream(s.unread));
  }

  // ---------------------------------------------------------------- the action barrier

  /** An action symbol in the stream stands for one queued action, at the end of a known prefix. */
  lemma {:induction false} ActionInStream(entries: seq<Entry>, p: nat) returns (j: nat)
    requires p < |Stream(entries)| && Stream(entries)[p].Act?
    ensures j < |entries| && entries[j] == Action(Stream(entries)[p].id) && |Stream(entries[..j])| == p
    decreases |entries|
  {
    var first := EntrySymbols(entries[0]);
    if p < |first| {
      j := 0;
    } else {
      j := ActionInStream(entries[1..], p - |first|);
      assert entries[..j + 1][1..] == entries[1..][..j];
      assert entries[..j + 1][0] == entries[0];
      j := j + 1;
    }
  }

  lemma {:induction false} SplitLog(log: seq<Out>, i: nat)
    requires i < |log|
    ensures OutStream(log) == OutStream(log[..i]) + OutSymbols(log[i]) + OutStream(log[i + 1..])
  {
    hide OutStream, OutSymbols;
    var before, after := log[..i], log[i + 1..];
    OutSnoc(before, log[i]);
    OutConcat(before + [log[i]], after);
    assert before + [log[i]] + after == log;
  }

  lemma {:induction false} SplitStream(entries: seq<Entry>, j: nat)
    requires j < |entries|
    ensures Stream(entries) == Stream(entries[..j]) + EntrySymbols(entries[j]) + Stream(entries[j + 1..])
  {
    assert entries == entries[..j] + entries[j..];
    assert entries[j..][1..] == entries[j + 1..];
    StreamConcat(entries[..j], entries[j..]);
  }

  /**
   When an action runs, no batch is outstanding, and what the sink has been made to do so far is
   exactly what was enqueued before that action.
   */
  lemma {:induction false} ActionBarrier(s: Sink, maxChunk: nat, i: nat) returns (j: nat)
    requires SinkInv(s, maxChunk) && i < |s.log| && s.log[i].Ran?
    ensures !Outstanding(s.log[..i])
    ensures j < |s.accepted| && s.accepted[j] == Action(s.log[i].id)
    ensures OutStream(s.log[..i]) == Stream(s.accepted[..j])
  {
    GoodLogAt(s.log, maxChunk, i);
    SplitLog(s.log, i);
    j := BarrierEntry(OutStream(s.log[..i]), s.log[i].id, OutStream(s.log[i + 1..]), Stream(s.unread), s.accepted);
  }

  lemma {:induction false} BarrierEntry(
      before: seq<Symbol>, id: nat, after: seq<Symbol>, unread: seq<Symbol>, accepted: seq<Entry>)
    returns (j: nat)
    requires Stream(accepted) == before + [Act(id)] + after + unread
    ensures j < |accepted| && accepted[j] == Action(id) && before == Stream(accepted[..j])
  {
    j := ActionInStream(accepted, |before|);
    SplitStream(accepted, j);
    assert before == Stream(accepted)[..|before|];
  }

  lemma {:induction false} LaterRunLonger(log: seq<Out>, i: nat, k: nat)
    requires i < k < |log| && log[i].Ran?
    ensures |OutStream(log[..i])| < |OutStream(log[..k])|
  {
    SplitLog(log[..k], i);
    assert log[..k][..i] == log[..i];
  }

  lemma {:induction false} LongerPrefix(entries: seq<Entry>, j: nat, k: nat)
    requires j <= |entries| && k <= |entries| && |Stream(entries[..j])| < |Stream(entries[..k])|
    ensures j < k
  {
    if k <= j {
      assert entries[..j] == entries[..k] + entries[k..j];
      StreamConcat(entries[..k], entries[k..j]);
    }
  }

  /** Two runs in the log are runs of two different queued actions, in the order of the queue: none runs twice. */
  lemma {:induction false} ActionRunsOnce(s: Sink, maxChunk: nat, i: nat, k: nat) returns (ji: nat, jk: nat)
    requires SinkInv(s, maxChunk) && i < k < |s.log| && s.log[i].Ran? && s.log[k].Ran?
    ensures ji < jk < |s.accepted|
    ensures s.accepted[ji] == Action(s.log[i].id) && OutStream(s.log[..i]) == Stream(s.accepted[..ji])
    ensures s.accepted[jk] == Action(s.log[k].id) && OutStream(s.log[..k]) == Stream(s.accepted[..jk])
  {
    ji := ActionBarrier(s, maxChunk, i);
    jk := ActionBarrier(s, maxChunk, k);
    LaterRunLonger(s.log, i, k);
    LongerPrefix(s.accepted, ji, jk);
  }

  /** A queued action has run as soon as the sink was made to do more than what preceded it. */
  lemma {:induction false} ActionHasRun(s: Sink, maxChunk: nat, j: nat) returns (i: nat)
    requires SinkInv(s, maxChunk) && j < |s.accepted| && s.accepted[j].Action?
    requires |Stream(s.accepted[..j])| < |OutStream(s.log)|
    ensures i < |s.log| && s.log[i] == Ran(s.accepted[j].id) && OutStream(s.log[..i]) == Stream(s.accepted[..j])
  {
    SplitStream(s.accepted, j);
    i := RunOf(s.log, Stream(s.accepted[..j]), s.accepted[j].id, Stream(s.accepted[j + 1..]), Stream(s.unread));
  }

  lemma {:induction false} RunOf(
      log: seq<Out>, before: seq<Symbol>, id: nat, after: seq<Symbol>, unread: seq<Symbol>) returns (i: nat)
    requires OutStream(log) + unread == before + [Act(id)] + after && |before| < |OutStream(log)|
    ensures i < |log| && log[i] == Ran(id) && OutStream(log[..i]) == before
  {
    assert OutStream(log)[|before|] == (before + [Act(id)] + after)[|before|];
    i := ActionInLog(log, |before|);
    SplitLog(log, i);
    assert OutStream(log[..i]) == (before + [Act(id)] + after)[..|before|];
  }

  lemma {:induction false} ActionInLog(log: seq<Out>, p: nat) returns (i: nat)
    requires p < |OutStream(log)| && OutStream(log)[p].Act?
    ensures i < |log| && log[i] == Ran(OutStream(log)[p].id) && |OutStream(log[..i])| == p
    decreases |log|
  {
    var init := log[..|log| - 1];
    if p < |OutStream(init)| {
      i := ActionInLog(init, p);
      assert log[..i] == init[..i];
    } else {
      i := |log| - 1;
    }
  }
}
