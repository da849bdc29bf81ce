/**
 The capped list of recent activity: each message is merged by sequence number, sorted newest first and cut.

 The theorem is that cutting after every message loses nothing: the list is always the head of what one
 merge of everything ever received would give.
 */
module ActivityStream {
  import opened Options

  datatype Activity = Activity(
    seqNo: int, source: string, kind: string, ts: real, summary: string, root: Option<string>, sessionId: Option<string>)

  /** An event as received: numbers that are not finite and texts that are not strings are missing. */
  datatype Raw = NotRecord | Raw(
    seqNo: Option<real>, source: Option<string>, kind: Option<string>, ts: Option<real>, summary: Option<string>,
    root: Option<string>, sessionId: Option<string>)

  function TextOr(text: Option<string>): (shown: string)
    ensures text.Some? ==> shown == text.value
    ensures text.None? ==> shown == ""
  {
    if text.Some? then text.value else ""
  }

  function NonEmptyText(text: Option<string>): Option<string> {
    if text.Some? && text.value != "" then text else None
  }

  /** `trim` takes the blanks off both ends of a text. */
  function Normalize(raw: Raw, trim: string -> string): Option<Activity> {
    if raw.NotRecord? || raw.seqNo.None? then None
    else
      var summary := if raw.summary.Some? then trim(raw.summary.value) else "";
      if summary == "" then None
      else Some(Activity(raw.seqNo.value.Floor, TextOr(raw.source), TextOr(raw.kind),
                         if raw.ts.Some? && raw.ts.value > 0.0 then raw.ts.value else 0.0,
                         summary, NonEmptyText(raw.root), NonEmptyText(raw.sessionId)))
  }

  function EventsIn(raws: seq<Raw>, trim: string -> string): seq<Activity> {
    if raws == [] then []
    else
      var event := Normalize(raws[|raws| - 1], trim);
      EventsIn(raws[..|raws| - 1], trim) + (if event.Some? then [event.value] else [])
  }

  /** `at` names, in order, the raw entries that normalize; `events` are what they normalize to. */
  ghost predicate Picks(raws: seq<Raw>, trim: string -> string, events: seq<Activity>, at: seq<nat>) {
    && |at| == |events|
    && (forall j, k :: 0 <= j < k < |at| ==> at[j] < at[k])
    && (forall j :: 0 <= j < |at| ==> at[j] < |raws| && Normalize(raws[at[j]], trim) == Some(events[j]))
    && (forall i :: 0 <= i < |raws| && Normalize(raws[i], trim).Some? ==> i in at)
  }

  lemma {:induction false} EventsPicked(raws: seq<Raw>, trim: string -> string) returns (at: seq<nat>)
    ensures Picks(raws, trim, EventsIn(raws, trim), at)
  {
    hide Normalize, Picks;
    if raws == [] {
      at := [];
      PickNone(trim);
    } else {
      var before, last := raws[..|raws| - 1], raws[|raws| - 1];
      at := EventsPicked(before, trim);
      PickSnoc(before, last, trim, EventsIn(before, trim), at);
      assert raws == before + [last] && EventsIn(before, trim) + [] == EventsIn(before, trim);
      at := if Normalize(last, trim).Some? then at + [|before|] else at;
    }
  }

  lemma {:induction false} PickNone(trim: string -> string)
    ensures Picks([], trim, [], [])
  {
  }

  lemma {:induction false} PickSnoc(
      raws: seq<Raw>, last: Raw, trim: string -> string, events: seq<Activity>, at: seq<nat>)
    requires Picks(raws, trim, events, at)
    ensures Normalize(last, trim).None? ==> Picks(raws + [last], trim, events, at)
    ensures Normalize(last, trim).Some? ==>
      Picks(raws + [last], trim, events + [Normalize(last, trim).value], at + [|raws|])
  {
    hide Normalize;
    var more := at + [|raws|];
    assert forall i :: i in at ==> i in more;
    assert more[|at|] == |raws|;
  }

  /** What it takes for an entry to be listed, and as what: a whole number, a summary that is not blank. */
  lemma {:induction false} NormalizedIff(raw: Raw, trim: string -> string)
    ensures Normalize(raw, trim).Some? <==>
      raw.Raw? && raw.seqNo.Some? && raw.summary.Some? && trim(raw.summary.value) != ""
    ensures
      var event := Normalize(raw, trim);
      event.Some? ==>
        && event.value.seqNo as real <= raw.seqNo.value < (event.value.seqNo + 1) as real
        && event.value.summary == trim(raw.summary.value)
        && event.value.ts >= 0.0 && (raw.ts.Some? && raw.ts.value > 0.0 ==> event.value.ts == raw.ts.value)
        && (raw.ts.None? || raw.ts.value <= 0.0 ==> event.value.ts == 0.0)
        && event.value.source == TextOr(raw.source) && event.value.kind == TextOr(raw.kind)
        && (event.value.root == raw.root || (raw.root == Some("") && event.value.root.None?)) && event.value.root != Some("")
        && (event.value.sessionId == raw.sessionId || (raw.sessionId == Some("") && event.value.sessionId.None?))
        && event.value.sessionId != Some("")
  {
  }

  /** Lists, in order, what each entry that normalizes normalizes to, and nothing else. */
  method EventsOfMessage(raws: seq<Raw>, trim: string -> string) returns (events: seq<Activity>, ghost at: seq<nat>)
    ensures events == EventsIn(raws, trim)
    ensures Picks(raws, trim, events, at)
  {
    events := [];
    for i := 0 to |raws|
      invariant events == EventsIn(raws[..i], trim)
    {
      assert raws[..i + 1][..i] == raws[..i];
      var event := Normalize(raws[i], trim);
      if event.Some? {
        events := events + [event.value];
      }
    }
    assert raws[..|raws|] == raws;
    at := EventsPicked(raws, trim);
  }

  // ---------------------------------------------------------------- sorting and cutting

  /** Newest first; among equals, the one listed first stays first. */
  function Insert(e: Activity, sorted: seq<Activity>): seq<Activity> {
    if sorted == [] || e.seqNo >= sorted[0].seqNo then [e] + sorted else [sorted[0]] + Insert(e, sorted[1..])
  }

  function Sorted(events: seq<Activity>): seq<Activity> {
    if events == [] then [] else Insert(events[0], Sorted(events[1..]))
  }

  function Capped(events: seq<Activity>, max: int): seq<Activity> {
    if max <= 0 then [] else if |events| <= max then events else events[..max]
  }

  function SortedAndCapped(events: seq<Activity>, max: int): seq<Activity> {
    Capped(Sorted(events), max)
  }

  // ---------------------------------------------------------------- merging

  /** Setting a key of an insertion-ordered map, seen as the list of its values. */
  function Put(values: seq<Activity>, e: Activity): seq<Activity> {
    if values == [] then [e]
    else if values[0].seqNo == e.seqNo then [e] + values[1..]
    else [values[0]] + Put(values[1..], e)
  }

  function PutAll(values: seq<Activity>, events: seq<Activity>): seq<Activity> {
    if events == [] then values else Put(PutAll(values, events[..|events| - 1]), events[|events| - 1])
  }

  function Apply(events: seq<Activity>, arriving: seq<Activity>, max: int): seq<Activity> {
    if arriving == [] then SortedAndCapped(events, max)
    else SortedAndCapped(PutAll(PutAll([], events), arriving), max)
  }

  method ApplyActivityMessage(events: seq<Activity>, raws: seq<Raw>, trim: string -> string, max: int)
      returns (shown: seq<Activity>)
    ensures shown == Apply(events, EventsIn(raws, trim), max)
  {
    var arriving, _ := EventsOfMessage(raws, trim);
    if |arriving| == 0 {
      return SortedAndCapped(events, max);
    }
    var bySeq := [];
    for i := 0 to |events|
      invariant bySeq == PutAll([], events[..i])
    {
      assert events[..i + 1][..i] == events[..i];
      bySeq := Put(bySeq, events[i]);
    }
    assert events[..|events|] == events;
    for i := 0 to |arriving|
      invariant bySeq == PutAll(PutAll([], events), arriving[..i])
    {
      assert arriving[..i + 1][..i] == arriving[..i];
      bySeq := Put(bySeq, arriving[i]);
    }
    assert arriving[..|arriving|] == arriving;
    shown := SortedAndCapped(bySeq, max);
  }

  /** The list after a run of messages. */
  function Shown(events: seq<Activity>, messages: seq<seq<Activity>>, max: int): seq<Activity> {
    if messages == [] then events
    else Apply(Shown(events, messages[..|messages| - 1], max), messages[|messages| - 1], max)
  }

  function Everything(events: seq<Activity>, messages: seq<seq<Activity>>): seq<Activity> {
    if messages == [] then events
    else Everything(events, messages[..|messages| - 1]) + messages[|messages| - 1]
  }

  // ---------------------------------------------------------------- merging into a sorted list

  /** Putting an event into a list that is already sorted: it takes the place of its elder, or is inserted. */
  function Upsert(e: Activity, sorted: seq<Activity>): seq<Activity> {
    if sorted == [] || e.seqNo > sorted[0].seqNo then [e] + sorted
    else if e.seqNo == sorted[0].seqNo then [e] + sorted[1..]
    else [sorted[0]] + Upsert(e, sorted[1..])
  }

  function UpsertAll(sorted: seq<Activity>, events: seq<Activity>): seq<Activity> {
    if events == [] then sorted else Upsert(events[|events| - 1], UpsertAll(sorted, events[..|events| - 1]))
  }

  lemma {:induction false} InsertUpsert(a: Activity, e: Activity, sorted: seq<Activity>)
    requires a.seqNo != e.seqNo
    ensures Insert(a, Upsert(e, sorted)) == Upsert(e, Insert(a, sorted))
  {
    if sorted != [] {
      InsertUpsert(a, e, sorted[1..]);
    }
  }

  ghost predicate NoneWith(events: seq<Activity>, seqNo: int) {
    forall i :: 0 <= i < |events| ==> events[i].seqNo != seqNo
  }

  ghost predicate Distinct(events: seq<Activity>) {
    forall i, j :: 0 <= i < j < |events| ==> events[i].seqNo != events[j].seqNo
  }

  lemma {:induction false} UpsertInserted(a: Activity, e: Activity, sorted: seq<Activity>)
    requires a.seqNo == e.seqNo && NoneWith(sorted, e.seqNo)
    ensures Upsert(e, Insert(a, sorted)) == Insert(e, sorted)
  {
    if sorted != [] {
      UpsertInserted(a, e, sorted[1..]);
    }
  }

  lemma {:induction false} SortKeeps(events: seq<Activity>, seqNo: int)
    requires NoneWith(events, seqNo)
    ensures NoneWith(Sorted(events), seqNo)
  {
    if events != [] {
      SortKeeps(events[1..], seqNo);
      InsertKeeps(events[0], Sorted(events[1..]), seqNo);
    }
  }

  lemma {:induction false} InsertKeeps(e: Activity, sorted: seq<Activity>, seqNo: int)
    requires NoneWith(sorted, seqNo) && e.seqNo != seqNo
    ensures NoneWith(Insert(e, sorted), seqNo)
  {
    if sorted != [] {
      InsertKeeps(e, sorted[1..], seqNo);
    }
  }

  lemma {:induction false} SortedPut(values: seq<Activity>, e: Activity)
    requires Distinct(values)
    ensures Sorted(Put(values, e)) == Upsert(e, Sorted(values))
  {
    if values != [] {
      var first, rest := values[0], values[1..];
      SortedPut(rest, e);
      if first.seqNo == e.seqNo {
        SortKeeps(rest, e.seqNo);
        UpsertInserted(first, e, Sorted(rest));
        assert Put(values, e)[1..] == rest;
      } else {
        InsertUpsert(first, e, Sorted(rest));
        assert Put(values, e)[1..] == Put(rest, e);
      }
    }
  }

  lemma {:induction false} PutKeeps(values: seq<Activity>, e: Activity, seqNo: int)
    requires NoneWith(values, seqNo) && e.seqNo != seqNo
    ensures NoneWith(Put(values, e), seqNo)
  {
    if values != [] {
      PutKeeps(values[1..], e, seqNo);
    }
  }

  lemma {:induction false} PutDistinct(values: seq<Activity>, e: Activity)
    requires Distinct(values)
    ensures Distinct(Put(values, e))
  {
    if values != [] {
      PutDistinct(values[1..], e);
      if values[0].seqNo != e.seqNo {
        PutKeeps(values[1..], e, values[0].seqNo);
      }
    }
  }

  lemma {:induction false} PutAllDistinct(values: seq<Activity>, events: seq<Activity>)
    requires Distinct(values)
    ensures Distinct(PutAll(values, events))
  {
    if events != [] {
      PutAllDistinct(values, events[..|events| - 1]);
      PutDistinct(PutAll(values, events[..|events| - 1]), events[|events| - 1]);
    }
  }

  /** Merging, then sorting, is merging into the sorted list. */
  lemma {:induction false} SortedPutAll(values: seq<Activity>, events: seq<Activity>)
    requires Distinct(values)
    ensures Sorted(PutAll(values, events)) == UpsertAll(Sorted(values), events)
  {
    if events != [] {
      SortedPutAll(values, events[..|events| - 1]);
      PutAllDistinct(values, events[..|events| - 1]);
      SortedPut(PutAll(values, events[..|events| - 1]), events[|events| - 1]);
    }
  }

  /** Merging into an empty map keeps a list without duplicates as it is. */
  lemma {:induction false} PutNew(values: seq<Activity>, e: Activity)
    requires NoneWith(values, e.seqNo)
    ensures Put(values, e) == values + [e]
  {
    if values != [] {
      PutNew(values[1..], e);
    }
  }

  lemma {:induction false} PutAllDistinctIsSame(events: seq<Activity>)
    requires Distinct(events)
    ensures PutAll([], events) == events
  {
    if events != [] {
      PutAllDistinctIsSame(events[..|events| - 1]);
      PutNew(events[..|events| - 1], events[|events| - 1]);
    }
  }

  // ---------------------------------------------------------------- cutting early changes nothing

  /** The head of a merged list depends only on the head of the list merged into. */
  lemma {:induction false} CappedUpsert(e: Activity, sorted: seq<Activity>, max: int)
    ensures Capped(Upsert(e, sorted), max) == Capped(Upsert(e, Capped(sorted, max)), max)
  {
    if max > 0 && sorted != [] {
      CappedUpsert(e, sorted[1..], max - 1);
      assert Capped(sorted, max)[1..] == Capped(sorted[1..], max - 1);
      CappedCons(sorted[0], Upsert(e, sorted[1..]), max);
      CappedCons(sorted[0], Upsert(e, Capped(sorted[1..], max - 1)), max);
    }
  }

  lemma {:induction false} CappedCons(e: Activity, rest: seq<Activity>, max: int)
    requires max > 0
    ensures Capped([e] + rest, max) == [e] + Capped(rest, max - 1)
  {
  }

  lemma {:induction false} CappedUpsertAll(sorted: seq<Activity>, events: seq<Activity>, max: int)
    ensures Capped(UpsertAll(sorted, events), max) == Capped(UpsertAll(Capped(sorted, max), events), max)
  {
    if events != [] {
      var before, e := events[..|events| - 1], events[|events| - 1];
      CappedUpsertAll(sorted, before, max);
      CappedUpsert(e, UpsertAll(sorted, before), max);
      CappedUpsert(e, UpsertAll(Capped(sorted, max), before), max);
    }
  }

  lemma {:induction false} UpsertAllConcat(sorted: seq<Activity>, a: seq<Activity>, b: seq<Activity>)
    ensures UpsertAll(sorted, a + b) == UpsertAll(UpsertAll(sorted, a), b)
  {
    if b == [] {
      assert a + b == a;
    } else {
      UpsertAllConcat(sorted, a, b[..|b| - 1]);
      assert (a + b)[..|a + b| - 1] == a + b[..|b| - 1];
    }
  }

  // ---------------------------------------------------------------- what a full merge holds

  /** The last event with this number. */
  function Latest(events: seq<Activity>, seqNo: int): Option<Activity> {
    if events == [] then None
    else if events[|events| - 1].seqNo == seqNo then Some(events[|events| - 1])
    else Latest(events[..|events| - 1], seqNo)
  }

  ghost predicate Descending(events: seq<Activity>) {
    forall i, j :: 0 <= i < j < |events| ==> events[i].seqNo > events[j].seqNo
  }

  lemma {:induction false} UpsertMeans(e: Activity, sorted: seq<Activity>, x: Activity)
    requires Descending(sorted)
    ensures Descending(Upsert(e, sorted))
    ensures x in Upsert(e, sorted) <==> x == e || (x in sorted && x.seqNo != e.seqNo)
    ensures Upsert(e, sorted) != []
    ensures sorted == [] || e.seqNo > sorted[0].seqNo ==> Upsert(e, sorted)[0] == e
    ensures sorted != [] && e.seqNo <= sorted[0].seqNo ==> Upsert(e, sorted)[0].seqNo == sorted[0].seqNo
  {
    if sorted != [] {
      var rest := sorted[1..];
      UpsertMeans(e, rest, x);
      assert sorted == [sorted[0]] + rest;
      if e.seqNo < sorted[0].seqNo {
        HeadAbove(sorted[0], Upsert(e, rest));
      }
    }
  }

  lemma {:induction false} HeadAbove(head: Activity, rest: seq<Activity>)
    requires Descending(rest) && (rest == [] || rest[0].seqNo < head.seqNo)
    ensures Descending([head] + rest)
  {
  }

  /** A full merge lists, newest first, exactly the latest event of each number. */
  lemma {:induction false} MergeMeans(events: seq<Activity>, x: Activity)
    ensures Descending(UpsertAll([], events))
    ensures x in UpsertAll([], events) <==> Latest(events, x.seqNo) == Some(x)
  {
    if events != [] {
      MergeMeans(events[..|events| - 1], x);
      UpsertMeans(events[|events| - 1], UpsertAll([], events[..|events| - 1]), x);
    }
  }

  // ---------------------------------------------------------------- the theorem

  lemma {:induction false} ApplyIsUpsert(events: seq<Activity>, arriving: seq<Activity>, max: int)
    requires Distinct(events)
    ensures Apply(events, arriving, max) == Capped(UpsertAll(Sorted(events), arriving), max)
  {
    if arriving != [] {
      PutAllDistinctIsSame(events);
      SortedPutAll(events, arriving);
    }
  }

  lemma {:induction false} SortedDescending(events: seq<Activity>)
    requires Descending(events)
    ensures Sorted(events) == events
  {
    if events != [] {
      SortedDescending(events[1..]);
    }
  }

  lemma {:induction false} SortedIsMerge(events: seq<Activity>)
    requires Distinct(events)
    ensures Sorted(events) == UpsertAll([], events)
  {
    PutAllDistinctIsSame(events);
    SortedPutAll([], events);
  }

  /**
   From a list without duplicates, over any messages, the list shown is the head of one merge of everything
   received: dropping events early never changes it.
   */
  lemma {:induction false} ShownIsBatch(events: seq<Activity>, messages: seq<seq<Activity>>, max: int)
    requires Distinct(events) && messages != []
    ensures Shown(events, messages, max) == Capped(UpsertAll([], Everything(events, messages)), max)
  {
    var before, arriving := messages[..|messages| - 1], messages[|messages| - 1];
    var all := Everything(events, before);
    SortedIsMerge(events);
    UpsertAllConcat([], all, arriving);
    if before == [] {
      ApplyIsUpsert(events, arriving, max);
    } else {
      ShownIsBatch(events, before, max);
      var merged := UpsertAll([], all);
      MergeIsDescending(all);
      SortedDescending(Capped(merged, max));
      ApplyIsUpsert(Capped(merged, max), arriving, max);
      CappedUpsertAll(merged, arriving, max);
    }
  }

  lemma {:induction false} MergeIsDescending(events: seq<Activity>)
    ensures Descending(UpsertAll([], events))
  {
    MergeMeans(events, Activity(0, "", "", 0.0, "", None, None));
  }

  // ---------------------------------------------------------------- the same over what was received

  /** The numbers received above this one. */
  function NewerNumbers(events: seq<Activity>, seqNo: int): set<int> {
    set i | 0 <= i < |events| && events[i].seqNo > seqNo :: events[i].seqNo
  }

  predicate HasNumber(events: seq<Activity>, seqNo: int) {
    exists i :: 0 <= i < |events| && events[i].seqNo == seqNo
  }

  lemma {:induction false} NewerIff(events: seq<Activity>, seqNo: int, n: int)
    ensures n in NewerNumbers(events, seqNo) <==> n > seqNo && HasNumber(events, n)
  {
  }

  lemma {:induction false} LatestIff(events: seq<Activity>, seqNo: int)
    ensures Latest(events, seqNo).Some? <==> HasNumber(events, seqNo)
    ensures Latest(events, seqNo).Some? ==> Latest(events, seqNo).value.seqNo == seqNo
  {
    if events != [] {
      var before := events[..|events| - 1];
      LatestIff(before, seqNo);
      assert forall i :: 0 <= i < |before| ==> before[i] == events[i];
    }
  }

  /** In a list that descends, the place of an event is the count of the numbers above it. */
  lemma {:induction false} PlaceIsCount(merged: seq<Activity>, k: nat)
    requires Descending(merged) && k < |merged|
    ensures |NewerNumbers(merged, merged[k].seqNo)| == k
  {
    if k == 0 {
      assert NewerNumbers(merged, merged[0].seqNo) == {};
    } else {
      PlaceIsCount(merged, k - 1);
      OneMore(merged, k);
      var above := merged[k - 1].seqNo;
      assert above !in NewerNumbers(merged, above);
    }
  }

  lemma {:induction false} OneMore(merged: seq<Activity>, k: nat)
    requires Descending(merged) && 0 < k < |merged|
    ensures NewerNumbers(merged, merged[k].seqNo) == NewerNumbers(merged, merged[k - 1].seqNo) + {merged[k - 1].seqNo}
  {
    forall n
      ensures n in NewerNumbers(merged, merged[k].seqNo) <==>
        n in NewerNumbers(merged, merged[k - 1].seqNo) || n == merged[k - 1].seqNo
    {
      NewerIff(merged, merged[k].seqNo, n);
      NewerIff(merged, merged[k - 1].seqNo, n);
    }
  }

  /** A merge has the numbers of what was merged. */
  lemma {:induction false} SameNumbers(events: seq<Activity>, seqNo: int)
    ensures NewerNumbers(UpsertAll([], events), seqNo) == NewerNumbers(events, seqNo)
  {
    hide UpsertAll, NewerNumbers, Latest;
    var merged := UpsertAll([], events);
    forall n: int
      ensures n in NewerNumbers(merged, seqNo) <==> n in NewerNumbers(events, seqNo)
    {
      NewerIff(merged, seqNo, n);
      NewerIff(events, seqNo, n);
      LatestIff(events, n);
      if HasNumber(merged, n) {
        var i :| 0 <= i < |merged| && merged[i].seqNo == n;
        MergeMeans(events, merged[i]);
      }
      if Latest(events, n).Some? {
        MergeMeans(events, Latest(events, n).value);
      }
    }
  }

  /**
   An event is shown iff, over everything received, it is the latest with its number and fewer than `max`
   different numbers lie above it.
   */
  lemma {:induction false} ShownIff(events: seq<Activity>, messages: seq<seq<Activity>>, max: int, x: Activity)
    requires Distinct(events) && messages != []
    ensures
      var all := Everything(events, messages);
      x in Shown(events, messages, max) <==>
        Latest(all, x.seqNo) == Some(x) && |NewerNumbers(all, x.seqNo)| < max
  {
    hide Shown, Latest, Everything, NewerNumbers, UpsertAll;
    var all := Everything(events, messages);
    var merged := UpsertAll([], all);
    ShownIsBatch(events, messages, max);
    MergeMeans(all, x);
    SameNumbers(all, x.seqNo);
    if x in merged {
      var k :| 0 <= k < |merged| && merged[k] == x;
      PlaceIsCount(merged, k);
      InHeadIff(merged, max, k);
    }
  }

  /** In a list that descends, an event is in the head iff its place is. */
  lemma {:induction false} InHeadIff(merged: seq<Activity>, max: int, k: nat)
    requires Descending(merged) && k < |merged|
    ensures merged[k] in Capped(merged, max) <==> k < max
  {
    if k < max {
      assert Capped(merged, max)[k] == merged[k];
    }
  }
}
