/** What the title parser promises whatever way the stream is cut into chunks. */
module OscTitleLaws {
  import opened Options
  import opened OscTitleModel

  // ---------------------------------------------------------------- a found title stays found

  lemma {:induction false} AtExtends(a: Text, b: Text, pattern: Text, i: nat)
    ensures i + |pattern| <= |a| ==> (At(a + b, pattern, i) <==> At(a, pattern, i))
  {
    if i + |pattern| <= |a| {
      assert (a + b)[i..i + |pattern|] == a[i..i + |pattern|];
    }
  }

  lemma {:induction false} IndexExtends(a: Text, b: Text, pattern: Text, from: nat)
    requires from <= |a|
    ensures
      var found, extended := IndexOf(a, pattern, from), IndexOf(a + b, pattern, from);
      && (found.Some? ==> extended == found)
      && (found.None? && extended.Some? ==> extended.value + |pattern| > |a|)
  {
    forall i: nat
      ensures i + |pattern| <= |a| ==> (At(a + b, pattern, i) <==> At(a, pattern, i))
    {
      AtExtends(a, b, pattern, i);
    }
  }

  /** More input never changes a title already complete. */
  lemma {:induction false} FoundStays(a: Text, b: Text, from: nat)
    requires from <= |a|
    ensures FindOscTitle(a, from).Some? ==> FindOscTitle(a + b, from) == FindOscTitle(a, from)
  {
    hide IndexOf, At;
    var found := FindOscTitle(a, from);
    if found.Some? {
      IndexExtends(a, b, OSC_START, from);
      var contentStart := found.value.start + |OSC_START|;
      IndexExtends(a, b, BEL, contentStart);
      IndexExtends(a, b, ST, contentStart);
      assert (a + b)[contentStart..found.value.end] == a[contentStart..found.value.end];
      EscapeIsNoBell(a, b, contentStart);
    }
  }

  /** A bell at the end of `a` is not the start of a string terminator that runs on into `b`. */
  lemma {:induction false} EscapeIsNoBell(a: Text, b: Text, from: nat)
    requires from <= |a|
    ensures
      var bel, st := IndexOf(a, BEL, from), IndexOf(a + b, ST, from);
      bel.Some? && st.Some? && st.value + |ST| > |a| ==> bel.value < st.value
  {
    var bel, st := IndexOf(a, BEL, from), IndexOf(a + b, ST, from);
    if bel.Some? && st.Some? && st.value + |ST| > |a| {
      assert a[bel.value] == a[bel.value..bel.value + 1][0] == 0x07;
      assert (a + b)[st.value] == (a + b)[st.value..st.value + 2][0] == 0x1b;
    }
  }

  /** Parsing `a + b` finds the titles of `a`, then goes on where they end. */
  lemma {:induction false} TitlesExtend(a: Text, b: Text, cursor: nat)
    requires cursor <= |a|
    ensures Titles(a + b, cursor) == Titles(a, cursor) + Titles(a + b, TitlesEnd(a, cursor))
    ensures TitlesEnd(a + b, cursor) == TitlesEnd(a + b, TitlesEnd(a, cursor))
    decreases |a| - cursor
  {
    hide FindOscTitle;
    FoundStays(a, b, cursor);
    var osc := FindOscTitle(a, cursor);
    if osc.Some? {
      TitlesExtend(a, b, osc.value.next);
    }
  }

  // ---------------------------------------------------------------- dropping what was parsed

  lemma {:induction false} IndexShifts(s: Text, pattern: Text, k: nat, from: nat)
    requires k <= from <= |s|
    ensures
      var shifted := IndexOf(s[k..], pattern, from - k);
      IndexOf(s, pattern, from) == if shifted.None? then None else Some(shifted.value + k)
  {
    forall i: nat
      ensures At(s[k..], pattern, i) <==> At(s, pattern, i + k)
    {
      if i + k + |pattern| <= |s| {
        assert s[k..][i..i + |pattern|] == s[i + k..i + k + |pattern|];
      }
    }
    var here, shifted := IndexOf(s, pattern, from), IndexOf(s[k..], pattern, from - k);
    if here.Some? {
      assert At(s[k..], pattern, here.value - k);
    }
    if shifted.Some? {
      assert At(s, pattern, shifted.value + k);
    }
  }

  lemma {:induction false} FindShifts(s: Text, k: nat, from: nat)
    requires k <= from <= |s|
    ensures
      var shifted := FindOscTitle(s[k..], from - k);
      FindOscTitle(s, from) ==
        if shifted.None? then None
        else Some(Osc(shifted.value.start + k, shifted.value.end + k, shifted.value.next + k, shifted.value.title))
  {
    hide IndexOf, At;
    IndexShifts(s, OSC_START, k, from);
    var start := IndexOf(s, OSC_START, from);
    if start.Some? {
      var contentStart := start.value + |OSC_START|;
      assert k <= contentStart <= |s|;
      IndexShifts(s, BEL, k, contentStart);
      IndexShifts(s, ST, k, contentStart);
      var osc := FindOscTitle(s, from);
      if osc.Some? {
        assert s[k..][contentStart - k..osc.value.end - k] == s[contentStart..osc.value.end];
      }
    }
  }

  lemma {:induction false} TitlesShift(s: Text, k: nat, cursor: nat)
    requires k <= cursor <= |s|
    ensures Titles(s[k..], cursor - k) == Titles(s, cursor)
    ensures TitlesEnd(s[k..], cursor - k) + k == TitlesEnd(s, cursor)
    decreases |s| - cursor
  {
    hide FindOscTitle;
    FindShifts(s, k, cursor);
    var osc := FindOscTitle(s, cursor);
    if osc.Some? {
      TitlesShift(s, k, osc.value.next);
    }
  }

  lemma {:induction false} NothingAfterEnd(s: Text, cursor: nat)
    requires cursor <= |s|
    ensures FindOscTitle(s, TitlesEnd(s, cursor)).None?
    decreases |s| - cursor
  {
    hide FindOscTitle;
    var osc := FindOscTitle(s, cursor);
    if osc.Some? {
      NothingAfterEnd(s, osc.value.next);
    }
  }

  // ---------------------------------------------------------------- chunking independence

  /** What is retained never holds a complete title, and never exceeds the limit. */
  lemma {:induction false} PendingIsUnfinished(chunks: seq<Text>)
    ensures FindOscTitle(PendingAfter(chunks), 0).None?
    ensures |PendingAfter(chunks)| <= MAX_BUFFER
  {
    hide FindOscTitle, TitlesEnd;
    if chunks == [] {
      NoTitleInNothing();
    } else {
      var before, chunk := chunks[..|chunks| - 1], chunks[|chunks| - 1];
      PendingIsUnfinished(before);
      var buffer := Buffered(PendingAfter(before), chunk);
      NothingAfterEnd(buffer, 0);
      FindShifts(buffer, TitlesEnd(buffer, 0), TitlesEnd(buffer, 0));
    }
  }

  lemma {:induction false} NoTitleInNothing()
    ensures FindOscTitle([], 0).None?
  {
  }

  /** One more chunk onto a stream parsed so far. */
  lemma {:induction false} ChunkJoins(stream: Text, chunk: Text)
    ensures
      var end := TitlesEnd(stream, 0);
      var joined := stream[end..] + chunk;
      && Titles(stream + chunk, 0) == Titles(stream, 0) + Titles(joined, 0)
      && (stream + chunk)[TitlesEnd(stream + chunk, 0)..] == joined[TitlesEnd(joined, 0)..]
  {
    hide FindOscTitle, Titles, TitlesEnd;
    var end := TitlesEnd(stream, 0);
    TitlesExtend(stream, chunk, 0);
    assert (stream + chunk)[end..] == stream[end..] + chunk;
    TitlesShift(stream + chunk, end, end);
  }

  /**
   While no buffer has to be cut, the titles processed are those of the whole stream, however it was
   cut into chunks, and what is retained is what follows the last of them.
   */
  lemma {:induction false} ChunkingIndependence(chunks: seq<Text>)
    requires NeverCut(chunks)
    ensures AllTitles(chunks) == Titles(Concat(chunks), 0)
    ensures PendingAfter(chunks) == Concat(chunks)[TitlesEnd(Concat(chunks), 0)..]
  {
    hide FindOscTitle, Titles, TitlesEnd, FeedTitles, FeedPending;
    if chunks == [] {
      NoTitlesInNothing();
    } else {
      var before, chunk := chunks[..|chunks| - 1], chunks[|chunks| - 1];
      ChunkingIndependence(before);
      ChunkJoins(Concat(before), chunk);
      PendingIsUnfinished(before);
      FeedUncut(PendingAfter(before), chunk);
    }
  }

  /** A chunk that fits is parsed behind what was retained; an empty one changes nothing. */
  lemma {:induction false} FeedUncut(pending: Text, chunk: Text)
    requires FindOscTitle(pending, 0).None? && |pending| + |chunk| <= MAX_BUFFER
    ensures FeedTitles(pending, chunk) == Titles(pending + chunk, 0)
    ensures FeedPending(pending, chunk) == (pending + chunk)[TitlesEnd(pending + chunk, 0)..]
  {
    if chunk == [] {
      assert pending + chunk == pending;
    }
  }

  lemma {:induction false} NoTitlesInNothing()
    ensures Titles([], 0) == [] && TitlesEnd([], 0) == 0
  {
  }

  // ---------------------------------------------------------------- writing titles and reading them back

  /** A piece of terminal output: text that holds no start marker, then a title and its terminator. */
  datatype Piece = Piece(before: Text, title: Text, endsWithBel: bool)

  function Written(piece: Piece): Text {
    piece.before + OSC_START + piece.title + (if piece.endsWithBel then BEL else ST)
  }

  predicate Plain(piece: Piece) {
    && IndexOf(piece.before, OSC_START, 0).None?
    && IndexOf(piece.title, BEL, 0).None?
    && IndexOf(piece.title, ST, 0).None?
  }

  function Stream(pieces: seq<Piece>): Text {
    if pieces == [] then [] else Written(pieces[0]) + Stream(pieces[1..])
  }

  function TitlesOf(pieces: seq<Piece>): seq<Text> {
    if pieces == [] then [] else [pieces[0].title] + TitlesOf(pieces[1..])
  }

  /** A start marker never begins inside marker-free text and runs on into the next marker. */
  lemma {:induction false} MarkerIsFirst(before: Text, rest: Text)
    requires IndexOf(before, OSC_START, 0).None?
    ensures IndexOf(before + OSC_START + rest, OSC_START, 0) == Some(|before|)
  {
    var s := before + OSC_START + rest;
    assert s[|before|..|before| + 4] == OSC_START;
    assert At(s, OSC_START, |before|);
    forall i: nat | i < |before|
      ensures !At(s, OSC_START, i)
    {
      if i + 4 <= |before| {
        AtExtends(before, OSC_START + rest, OSC_START, i);
        assert before + (OSC_START + rest) == s;
      } else {
        assert s[i..i + 4][|before| - i] == s[|before|] == 0x1b;
      }
    }
  }

  lemma {:induction false} BelAt(s: Text, i: nat)
    ensures At(s, BEL, i) <==> i < |s| && s[i] == 0x07
  {
    if i < |s| {
      assert s[i..i + 1] == [s[i]];
    }
  }

  lemma {:induction false} StAt(s: Text, i: nat)
    ensures At(s, ST, i) <==> i + 1 < |s| && s[i] == 0x1b && s[i + 1] == 0x5c
  {
    if i + 1 < |s| {
      assert s[i..i + 2] == [s[i], s[i + 1]];
    }
  }

  /** Whatever is written after a title with neither terminator, unless it opens with a backslash, starts none inside it. */
  lemma {:induction false} NoTerminatorInside(head: Text, title: Text, rest: Text, i: nat)
    requires IndexOf(title, BEL, 0).None? && IndexOf(title, ST, 0).None?
    requires rest != [] && rest[0] != 0x5c && |head| <= i < |head| + |title|
    ensures var s := head + title + rest; !At(s, BEL, i) && !At(s, ST, i)
  {
    hide At, IndexOf;
    var s := head + title + rest;
    var at := i - |head|;
    BelAt(title, at);
    StAt(title, at);
    BelAt(s, i);
    StAt(s, i);
    assert s[i] == title[at];
    assert s[i + 1] == if at + 1 < |title| then title[at + 1] else rest[0];
  }

  lemma {:induction false} TerminatorStandsAt(head: Text, endsWithBel: bool, rest: Text)
    ensures
      var s := head + (if endsWithBel then BEL else ST) + rest;
      && (At(s, BEL, |head|) <==> endsWithBel) && (At(s, ST, |head|) <==> !endsWithBel)
  {
    hide At;
    var s := head + (if endsWithBel then BEL else ST) + rest;
    BelAt(s, |head|);
    StAt(s, |head|);
  }

  /** In a title with neither terminator, the terminator written after it is the first one. */
  lemma {:induction false} TerminatorIsFirst(s: Text, head: Text, title: Text, endsWithBel: bool, rest: Text)
    requires IndexOf(title, BEL, 0).None? && IndexOf(title, ST, 0).None?
    requires s == head + title + ((if endsWithBel then BEL else ST) + rest)
    ensures
      var bel, st, end := IndexOf(s, BEL, |head|), IndexOf(s, ST, |head|), |head| + |title|;
      if endsWithBel then bel == Some(end) && (st.Some? ==> st.value > end)
      else st == Some(end) && (bel.Some? ==> bel.value > end)
  {
    hide At;
    var end := |head| + |title|;
    var terminator := if endsWithBel then BEL else ST;
    assert s == (head + title) + terminator + rest;
    TerminatorStandsAt(head + title, endsWithBel, rest);
    forall i: nat | |head| <= i < end
      ensures !At(s, BEL, i) && !At(s, ST, i)
    {
      NoTerminatorInside(head, title, terminator + rest, i);
    }
  }

  /** The first title written is the first title found. */
  lemma {:induction false} FirstTitle(piece: Piece, rest: Text)
    requires Plain(piece)
    ensures
      var s := Written(piece) + rest;
      var end := |piece.before| + |OSC_START| + |piece.title|;
      FindOscTitle(s, 0) == Some(Osc(|piece.before|, end, |Written(piece)|, piece.title))
  {
    hide IndexOf, At;
    var s := Written(piece) + rest;
    var terminator := if piece.endsWithBel then BEL else ST;
    var head := piece.before + OSC_START;
    assert s == piece.before + OSC_START + (piece.title + terminator + rest);
    MarkerIsFirst(piece.before, piece.title + terminator + rest);
    assert s == head + piece.title + terminator + rest;
    var end := |head| + |piece.title|;
    assert s == head + piece.title + (terminator + rest);
    TerminatorIsFirst(s, head, piece.title, piece.endsWithBel, rest);
    assert s[|head|..end] == piece.title;
  }

  /** Reading back a written stream gives exactly the titles written, whatever text stands between them. */
  lemma {:induction false} StreamRoundTrip(pieces: seq<Piece>)
    requires forall i :: 0 <= i < |pieces| ==> Plain(pieces[i])
    ensures Titles(Stream(pieces), 0) == TitlesOf(pieces)
    ensures TitlesEnd(Stream(pieces), 0) == |Stream(pieces)|
  {
    hide FindOscTitle, Plain;
    if pieces == [] {
      NoTitlesInNothing();
    } else {
      var first, rest := Written(pieces[0]), Stream(pieces[1..]);
      FirstTitle(pieces[0], rest);
      StreamRoundTrip(pieces[1..]);
      assert (first + rest)[|first|..] == rest;
      TitlesShift(first + rest, |first|, |first|);
    }
  }

  // ---------------------------------------------------------------- a buffer that had to be cut

  lemma {:induction false} NoTitleWithoutMarker(s: Text)
    requires IndexOf(s, OSC_START, 0).None?
    ensures Titles(s, 0) == []
  {
  }

  /** Marker-free text after a title pushes it out of an overlong buffer: it is lost, though it was complete. */
  lemma {:induction false} CutLosesTitle(piece: Piece, filler: Text)
    requires Plain(piece) && IndexOf(filler, OSC_START, 0).None?
    requires |filler| >= KEPT_TAIL && |Written(piece)| + |filler| > MAX_BUFFER
    ensures FeedTitles([], Written(piece) + filler) == []
    ensures Titles(Written(piece) + filler, 0) == [piece.title]
  {
    hide FindOscTitle, Plain, IndexOf, Written;
    var chunk := Written(piece) + filler;
    CutKeepsTail(Written(piece), filler);
    FirstTitle(piece, filler);
    assert chunk[|Written(piece)|..] == filler;
    NoTitleWithoutMarker(filler);
    TitlesShift(chunk, |Written(piece)|, |Written(piece)|);
  }

  lemma {:induction false} CutKeepsTail(head: Text, filler: Text)
    requires IndexOf(filler, OSC_START, 0).None?
    requires |filler| >= KEPT_TAIL && |head| + |filler| > MAX_BUFFER
    ensures FeedTitles([], head + filler) == []
  {
    hide FindOscTitle, Titles, IndexOf, At, FeedTitles;
    var tail := filler[|filler| - KEPT_TAIL..];
    OverlongFeed(head + filler);
    TailOfTail(head, filler, KEPT_TAIL);
    NoMarkerInTail(filler, |filler| - KEPT_TAIL);
    NoTitleWithoutMarker(tail);
  }

  lemma {:induction false} OverlongFeed(chunk: Text)
    requires |chunk| > MAX_BUFFER
    ensures FeedTitles([], chunk) == Titles(chunk[|chunk| - KEPT_TAIL..], 0)
  {
    hide FindOscTitle, Titles;
    assert [] + chunk == chunk;
  }

  lemma {:induction false} TailOfTail(head: Text, filler: Text, n: nat)
    requires n <= |filler|
    ensures (head + filler)[|head + filler| - n..] == filler[|filler| - n..]
  {
  }

  lemma {:induction false} NoMarkerInTail(text: Text, cut: nat)
    requires cut <= |text| && IndexOf(text, OSC_START, 0).None?
    ensures IndexOf(text[cut..], OSC_START, 0).None?
  {
    hide IndexOf, At;
    IndexShifts(text, OSC_START, cut, cut);
  }
}
