/**
 Which cuts of an overlong buffer lose titles: exactly those with a start marker in the part cut off.
 The same over whole runs, against parsing the stream at once.
 */
module OscTitleCuts {
  import opened Options
  import opened OscTitleModel
  import opened OscTitleLaws

  // ---------------------------------------------------------------- one cut

  /** A title starts before the cut. */
  predicate MarkerBefore(s: Text, k: nat) {
    var start := IndexOf(s, OSC_START, 0);
    start.Some? && start.value < k
  }

  /** Without one, parsing from the cut is parsing from the beginning, whatever follows. */
  lemma {:induction false} CutKeepsTitles(s: Text, k: nat, more: Text)
    requires k + |OSC_START| <= |s| && !MarkerBefore(s, k)
    ensures Titles(s + more, 0) == Titles(s[k..] + more, 0)
  {
    hide Titles, IndexOf, MarkerBefore;
    var all := s + more;
    StartsAfter(s, k, more);
    SameStart(all, k);
    TitlesShift(all, k, k);
    assert all[k..] == s[k..] + more;
  }

  lemma {:induction false} StartsAfter(s: Text, k: nat, more: Text)
    requires k + |OSC_START| <= |s| && !MarkerBefore(s, k)
    ensures IndexOf(s + more, OSC_START, 0) == IndexOf(s + more, OSC_START, k)
  {
    hide At;
    forall i: nat | i < k
      ensures !At(s + more, OSC_START, i)
    {
      AtExtends(s, more, OSC_START, i);
    }
    var here, there := IndexOf(s + more, OSC_START, 0), IndexOf(s + more, OSC_START, k);
    assert here.Some? ==> here.value >= k;
  }

  lemma {:induction false} SameStart(s: Text, k: nat)
    requires k <= |s| && IndexOf(s, OSC_START, 0) == IndexOf(s, OSC_START, k)
    ensures Titles(s, 0) == Titles(s, k)
  {
    hide IndexOf, At;
    assert FindOscTitle(s, 0) == FindOscTitle(s, k);
  }

  // ---------------------------------------------------------------- starting later finds less

  function TotalLength(titles: seq<Text>): nat {
    if titles == [] then 0 else |titles[0]| + TotalLength(titles[1..])
  }

  /** Fewer titles, or as many but shorter ones. */
  predicate Less(some: seq<Text>, all: seq<Text>) {
    |some| < |all| || (|some| == |all| && TotalLength(some) < TotalLength(all))
  }

  /** No terminator begins inside a start marker, nor runs on into one. */
  lemma {:induction false} NoTerminatorInMarker(s: Text, q: nat, e: nat)
    requires At(s, OSC_START, q) && e < q + |OSC_START|
    ensures At(s, BEL, e) ==> e + 1 <= q
    ensures At(s, ST, e) ==> e + 2 <= q
  {
    var marker := s[q..q + 4];
    assert marker == OSC_START;
    assert s[q] == marker[0] == 0x1b;
    assert s[q + 1] == marker[1] == 0x5d;
    assert s[q + 2] == marker[2] == 0x30;
    assert s[q + 3] == marker[3] == 0x3b;
    BelAt(s, e);
    StAt(s, e);
  }

  /** Where the terminator of a title that starts at a marker stands. */
  lemma {:induction false} FoundMeans(s: Text, from: nat)
    requires from <= |s|
    ensures
      var osc := FindOscTitle(s, from);
      osc.Some? ==>
        var o := osc.value;
        var c := o.start + |OSC_START|;
        && IndexOf(s, OSC_START, from) == Some(o.start)
        && o.title == s[c..o.end]
        && (At(s, BEL, o.end) || At(s, ST, o.end))
        && o.next == (if At(s, BEL, o.end) then o.end + 1 else o.end + 2)
        && (forall e: nat :: c <= e < o.end ==> !At(s, BEL, e) && !At(s, ST, e))
  {
    var osc := FindOscTitle(s, from);
    if osc.Some? {
      BelAt(s, osc.value.end);
      StAt(s, osc.value.end);
      hide At;
    }
  }

  lemma {:induction false} NotFoundMeans(s: Text, from: nat)
    requires from <= |s| && FindOscTitle(s, from).None? && IndexOf(s, OSC_START, from).Some?
    ensures forall e: nat :: IndexOf(s, OSC_START, from).value + |OSC_START| <= e ==> !At(s, BEL, e) && !At(s, ST, e)
  {
    hide At;
  }

  /** Looking from later on: the same title, a later start of the same title, or a title behind it. */
  lemma {:induction false} FindOrder(s: Text, c: nat, d: nat)
    requires c <= d <= |s|
    ensures
      var first, later := FindOscTitle(s, c), FindOscTitle(s, d);
      && (first.None? ==> later.None?)
      && (first.Some? && first.value.start >= d ==> later == first)
      && (first.Some? && later.Some? && first.value.start < d ==>
        && first.value.start < later.value.start
        && (first.value.next <= later.value.start
            || (first.value.end == later.value.end && first.value.next == later.value.next)))
  {
    var first, later := FindOscTitle(s, c), FindOscTitle(s, d);
    FoundMeans(s, c);
    FoundMeans(s, d);
    StartOrder(s, c, d);
    if later.Some? {
      var q := later.value.start;
      if first.None? {
        NotFoundMeans(s, c);
      } else if first.value.start < d {
        if first.value.end < q + |OSC_START| {
          NoTerminatorInMarker(s, q, first.value.end);
        }
        hide At;
      }
    }
    if first.Some? && first.value.start >= d {
      SameFind(s, c, d);
    }
  }

  lemma {:induction false} StartOrder(s: Text, c: nat, d: nat)
    requires c <= d <= |s|
    ensures
      var first, later := IndexOf(s, OSC_START, c), IndexOf(s, OSC_START, d);
      && (later.Some? ==> first.Some? && first.value <= later.value)
      && (first.Some? && first.value >= d ==> later == first)
  {
    hide At;
  }

  lemma {:induction false} SameFind(s: Text, c: nat, d: nat)
    requires c <= |s| && d <= |s| && IndexOf(s, OSC_START, c) == IndexOf(s, OSC_START, d)
    ensures FindOscTitle(s, c) == FindOscTitle(s, d)
  {
    hide IndexOf, At;
  }

  /** Parsing from later on finds the same titles, or less; less if a title starting before that is complete. */
  lemma {:induction false} SkipFindsLess(s: Text, c: nat, d: nat)
    requires c <= d <= |s|
    ensures Titles(s, d) == Titles(s, c) || Less(Titles(s, d), Titles(s, c))
    ensures FindOscTitle(s, c).Some? && FindOscTitle(s, c).value.start < d ==> Less(Titles(s, d), Titles(s, c))
    decreases |s| - c
  {
    hide FindOscTitle, IndexOf, At;
    var first, later := FindOscTitle(s, c), FindOscTitle(s, d);
    FindOrder(s, c, d);
    if first.Some? && later.Some? && first.value.start < d {
      FoundMeans(s, c);
      FoundMeans(s, d);
      if first.value.next <= later.value.start {
        SkipFindsLess(s, first.value.next, later.value.start);
        AtItsStart(s, d);
        assert Titles(s, later.value.start) == Titles(s, d);
      } else {
        assert Titles(s, c)[1..] == Titles(s, d)[1..];
      }
    }
  }

  lemma {:induction false} AtItsStart(s: Text, d: nat)
    requires d <= |s| && FindOscTitle(s, d).Some?
    ensures FindOscTitle(s, FindOscTitle(s, d).value.start) == FindOscTitle(s, d)
  {
    FoundMeans(s, d);
    var q := FindOscTitle(s, d).value.start;
    StartOrder(s, d, q);
    assert At(s, OSC_START, q);
    hide At;
    assert IndexOf(s, OSC_START, q) == Some(q);
    SameFind(s, d, q);
  }

  // ---------------------------------------------------------------- one cut, exactly

  predicate HoldsBel(s: Text) {
    IndexOf(s, BEL, 0).Some?
  }

  /** A start marker and a bell behind it make a title. */
  lemma {:induction false} BelCompletes(s: Text, k: nat, more: Text)
    requires MarkerBefore(s, k) && HoldsBel(more)
    ensures FindOscTitle(s + more, 0).Some? && FindOscTitle(s + more, 0).value.start < k
  {
    hide At;
    IndexExtends(s, more, OSC_START, 0);
    var bel := IndexOf(more, BEL, 0).value;
    BelAt(more, bel);
    BelAt(s + more, |s| + bel);
    assert (s + more)[|s| + bel] == more[bel];
    FoundMeans(s + more, 0);
    if FindOscTitle(s + more, 0).None? {
      NotFoundMeans(s + more, 0);
    }
  }

  /** A cut never adds a title, and with a marker before it and a bell to come it loses some of what there is. */
  lemma {:induction false} CutFindsLess(s: Text, k: nat, more: Text)
    requires k <= |s|
    ensures
      var kept, whole := Titles(s[k..] + more, 0), Titles(s + more, 0);
      && (kept == whole || Less(kept, whole))
      && (MarkerBefore(s, k) && HoldsBel(more) ==> Less(kept, whole))
  {
    hide FindOscTitle, IndexOf, At;
    var all := s + more;
    SkipFindsLess(all, 0, k);
    TitlesShift(all, k, k);
    assert all[k..] == s[k..] + more;
    if MarkerBefore(s, k) && HoldsBel(more) {
      BelCompletes(s, k, more);
    }
  }

  /** A cut loses nothing, whatever follows, iff no title starts before it. */
  lemma {:induction false} CutLosesNothingIff(s: Text, k: nat)
    requires k + |OSC_START| <= |s|
    ensures
      (forall more: Text :: Titles(s[k..] + more, 0) == Titles(s + more, 0)) <==>
      !MarkerBefore(s, k)
  {
    hide Titles, MarkerBefore;
    if MarkerBefore(s, k) {
      OneBel();
      CutFindsLess(s, k, BEL);
    } else {
      forall more: Text
        ensures Titles(s[k..] + more, 0) == Titles(s + more, 0)
      {
        CutKeepsTitles(s, k, more);
      }
    }
  }

  lemma {:induction false} OneBel()
    ensures HoldsBel(BEL)
  {
    BelAt(BEL, 0);
  }

  // ---------------------------------------------------------------- whole runs

  /** Feeding this chunk cuts nothing, or cuts before any title that has started. */
  predicate Harmless(pending: Text, chunk: Text) {
    var joined := pending + chunk;
    |joined| > MAX_BUFFER ==> !MarkerBefore(joined, |joined| - KEPT_TAIL)
  }

  predicate HarmlessCuts(chunks: seq<Text>) {
    chunks == [] || (
      && HarmlessCuts(chunks[..|chunks| - 1])
      && Harmless(PendingAfter(chunks[..|chunks| - 1]), chunks[|chunks| - 1]))
  }

  /** The titles processed so far, then those that parsing on would find. */
  function WithMore(chunks: seq<Text>, more: Text): seq<Text> {
    AllTitles(chunks) + Titles(PendingAfter(chunks) + more, 0)
  }

  /** Feeding a chunk and going on is going on from the buffer it leaves. */
  lemma {:induction false} FeedThenMore(pending: Text, chunk: Text, more: Text)
    requires chunk != []
    ensures
      FeedTitles(pending, chunk) + Titles(FeedPending(pending, chunk) + more, 0)
        == Titles(Buffered(pending, chunk) + more, 0)
  {
    hide FindOscTitle, Titles, TitlesEnd, Buffered;
    var buffer := Buffered(pending, chunk);
    var end := TitlesEnd(buffer, 0);
    TitlesExtend(buffer, more, 0);
    TitlesShift(buffer + more, end, end);
    assert (buffer + more)[end..] == buffer[end..] + more;
  }

  /** What feeding a chunk does to what there is to find. */
  lemma {:induction false} FeedFindsLess(pending: Text, chunk: Text, more: Text)
    requires |pending| <= MAX_BUFFER
    ensures
      var fed, whole := FeedTitles(pending, chunk) + Titles(FeedPending(pending, chunk) + more, 0), Titles(pending + (chunk + more), 0);
      && (fed == whole || Less(fed, whole))
      && (Harmless(pending, chunk) ==> fed == whole)
      && (!Harmless(pending, chunk) && HoldsBel(more) ==> Less(fed, whole))
  {
    hide Titles, FindOscTitle, MarkerBefore, HoldsBel, Less;
    var joined := pending + chunk;
    assert pending + (chunk + more) == joined + more;
    if chunk == [] {
      assert joined == pending && chunk + more == more;
    } else {
      FeedThenMore(pending, chunk, more);
      if |joined| > MAX_BUFFER {
        var k := |joined| - KEPT_TAIL;
        CutFindsLess(joined, k, more);
        if !MarkerBefore(joined, k) {
          CutKeepsTitles(joined, k, more);
        }
      }
    }
  }

  lemma {:induction false} TotalLengthConcat(a: seq<Text>, b: seq<Text>)
    ensures TotalLength(a + b) == TotalLength(a) + TotalLength(b)
  {
    if a == [] {
      assert a + b == b;
    } else {
      assert (a + b)[1..] == a[1..] + b;
      TotalLengthConcat(a[1..], b);
    }
  }

  lemma {:induction false} LessBehind(before: seq<Text>, some: seq<Text>, all: seq<Text>)
    ensures Less(before + some, before + all) <==> Less(some, all)
  {
    TotalLengthConcat(before, some);
    TotalLengthConcat(before, all);
  }

  lemma {:induction false} BelStays(chunk: Text, more: Text)
    requires HoldsBel(more)
    ensures HoldsBel(chunk + more)
  {
    hide At;
    var bel := IndexOf(more, BEL, 0).value;
    BelAt(more, bel);
    BelAt(chunk + more, |chunk| + bel);
  }

  /**
   Against parsing the whole stream at once, feeding it in chunks never finds more; it finds the same if every
   cut was harmless, and less, as soon as a bell comes, if one was not.
   */
  lemma {:induction false} RunFindsLess(chunks: seq<Text>, more: Text)
    ensures
      var fed, whole := WithMore(chunks, more), Titles(Concat(chunks) + more, 0);
      && (fed == whole || Less(fed, whole))
      && (HarmlessCuts(chunks) ==> fed == whole)
      && (!HarmlessCuts(chunks) && HoldsBel(more) ==> Less(fed, whole))
  {
    hide Titles, FindOscTitle, HoldsBel, Harmless, FeedTitles, FeedPending, Less;
    if chunks == [] {
      assert [] + more == more;
      assert [] + Titles(more, 0) == Titles(more, 0);
    } else {
      var before, chunk := chunks[..|chunks| - 1], chunks[|chunks| - 1];
      var pending, done := PendingAfter(before), AllTitles(before);
      PendingIsUnfinished(before);
      RunFindsLess(before, chunk + more);
      FeedFindsLess(pending, chunk, more);
      if HoldsBel(more) {
        BelStays(chunk, more);
      }
      var fed, going := FeedTitles(pending, chunk) + Titles(FeedPending(pending, chunk) + more, 0), Titles(pending + (chunk + more), 0);
      LessBehind(done, fed, going);
      assert WithMore(chunks, more) == done + fed;
      assert Concat(before) + (chunk + more) == Concat(chunks) + more;
      LessChains(done + fed, done + going, Titles(Concat(chunks) + more, 0));
    }
  }

  lemma {:induction false} LessChains(a: seq<Text>, b: seq<Text>, c: seq<Text>)
    ensures Less(a, b) && Less(b, c) ==> Less(a, c)
  {
  }

  /** Feeding in chunks is parsing the stream, whatever follows, iff every cut was harmless. */
  lemma {:induction false} ChunkingIndependenceIff(chunks: seq<Text>)
    ensures
      (forall more: Text :: WithMore(chunks, more) == Titles(Concat(chunks) + more, 0)) <==>
      HarmlessCuts(chunks)
  {
    hide Titles, HarmlessCuts, WithMore;
    forall more: Text
      ensures HarmlessCuts(chunks) ==> WithMore(chunks, more) == Titles(Concat(chunks) + more, 0)
    {
      RunFindsLess(chunks, more);
    }
    OneBel();
    RunFindsLess(chunks, BEL);
  }

  /** After harmless cuts the titles processed are those of the stream so far. */
  lemma {:induction false} HarmlessCutsLoseNothing(chunks: seq<Text>)
    requires HarmlessCuts(chunks)
    ensures AllTitles(chunks) == Titles(Concat(chunks), 0)
  {
    hide Titles;
    RunFindsLess(chunks, []);
    PendingIsUnfinished(chunks);
    assert PendingAfter(chunks) + [] == PendingAfter(chunks) && Concat(chunks) + [] == Concat(chunks);
    NoneFound(PendingAfter(chunks));
  }

  lemma {:induction false} NoneFound(s: Text)
    requires FindOscTitle(s, 0).None?
    ensures Titles(s, 0) == []
  {
  }

  lemma {:induction false} NeverCutIsHarmless(chunks: seq<Text>)
    requires NeverCut(chunks)
    ensures HarmlessCuts(chunks)
  {
    if chunks != [] {
      NeverCutIsHarmless(chunks[..|chunks| - 1]);
    }
  }

  /** Two ways of cutting one stream give the same titles. */
  lemma {:induction false} AnyTwoSplitsAgree(chunks: seq<Text>, others: seq<Text>)
    requires HarmlessCuts(chunks) && HarmlessCuts(others) && Concat(chunks) == Concat(others)
    ensures AllTitles(chunks) == AllTitles(others)
    ensures NeverCut(chunks) && NeverCut(others) ==> PendingAfter(chunks) == PendingAfter(others)
  {
    HarmlessCutsLoseNothing(chunks);
    HarmlessCutsLoseNothing(others);
    if NeverCut(chunks) && NeverCut(others) {
      ChunkingIndependence(chunks);
      ChunkingIndependence(others);
    }
  }

  /** Whatever way the written stream is cut, the source processes exactly the titles written. */
  lemma {:induction false} WrittenTitlesArrive(pieces: seq<Piece>, chunks: seq<Text>)
    requires forall i :: 0 <= i < |pieces| ==> Plain(pieces[i])
    requires HarmlessCuts(chunks) && Concat(chunks) == Stream(pieces)
    ensures AllTitles(chunks) == TitlesOf(pieces)
    ensures NeverCut(chunks) ==> PendingAfter(chunks) == []
  {
    HarmlessCutsLoseNothing(chunks);
    StreamRoundTrip(pieces);
    if NeverCut(chunks) {
      ChunkingIndependence(chunks);
    }
  }

  /** The buffer is what came in, or its last 4096 units once that is more than 8192. */
  lemma {:induction false} BufferIs(pending: Text, chunk: Text)
    ensures
      var joined := pending + chunk;
      Buffered(pending, chunk) == if |joined| <= 8192 then joined else joined[|joined| - 4096..]
  {
  }
}
