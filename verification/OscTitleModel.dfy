/**
 Terminal titles in a stream of UTF-16 code units: OSC 0 strings ended by ST (sections 8.3.89 and 8.3.143
 of ECMA-48) or by xterm's BEL.
 */
module OscTitleModel {
  import opened Options

  newtype CodeUnit = u: int | 0 <= u < 0x1_0000

  type Text = seq<CodeUnit>

  const OSC_START: Text := [0x1b, 0x5d, 0x30, 0x3b]
  const BEL: Text := [0x07]
  const ST: Text := [0x1b, 0x5c]

  const MAX_BUFFER := 8192
  const KEPT_TAIL := 4096

  predicate At(s: Text, pattern: Text, i: nat) {
    i + |pattern| <= |s| && s[i..i + |pattern|] == pattern
  }

  /** The first place at or after `from` where the pattern stands. */
  function IndexOf(s: Text, pattern: Text, from: nat): (r: Option<nat>)
    requires from <= |s|
    ensures r.Some? ==> from <= r.value && r.value + |pattern| <= |s| && At(s, pattern, r.value)
    ensures r.Some? ==> forall i :: from <= i < r.value ==> !At(s, pattern, i)
    ensures r.None? ==> forall i :: from <= i ==> !At(s, pattern, i)
    decreases |s| - from
  {
    if At(s, pattern, from) then Some(from)
    else if from == |s| then None
    else IndexOf(s, pattern, from + 1)
  }

  datatype Osc = Osc(start: nat, end: nat, next: nat, title: Text)

  /** The first complete title that starts at or after `from`. */
  function FindOscTitle(buffer: Text, from: nat): (osc: Option<Osc>)
    requires from <= |buffer|
    ensures osc.Some? ==> from <= osc.value.start < osc.value.end < osc.value.next <= |buffer|
    ensures osc.Some? ==> osc.value.start + |OSC_START| <= osc.value.end
  {
    var start := IndexOf(buffer, OSC_START, from);
    if start.None? then None
    else
      var contentStart := start.value + |OSC_START|;
      var belEnd := IndexOf(buffer, BEL, contentStart);
      var stEnd := IndexOf(buffer, ST, contentStart);
      if belEnd.None? && stEnd.None? then None
      else
        var useBel := belEnd.Some? && (stEnd.None? || belEnd.value < stEnd.value);
        var end := if useBel then belEnd.value else stEnd.value;
        Some(Osc(start.value, end, end + (if useBel then 1 else 2), buffer[contentStart..end]))
  }

  /** The titles found from `cursor` on, one after another. */
  function Titles(buffer: Text, cursor: nat): seq<Text>
    requires cursor <= |buffer|
    decreases |buffer| - cursor
  {
    var osc := FindOscTitle(buffer, cursor);
    if osc.None? then [] else [osc.value.title] + Titles(buffer, osc.value.next)
  }

  /** Where the last of them ends. */
  function TitlesEnd(buffer: Text, cursor: nat): (end: nat)
    requires cursor <= |buffer|
    ensures cursor <= end <= |buffer|
    decreases |buffer| - cursor
  {
    var osc := FindOscTitle(buffer, cursor);
    if osc.None? then cursor else TitlesEnd(buffer, osc.value.next)
  }

  /** The buffer once a chunk has arrived, cut down when it has grown too long. */
  function Buffered(pending: Text, chunk: Text): (buffer: Text)
    ensures |buffer| <= MAX_BUFFER
  {
    var joined := pending + chunk;
    if |joined| > MAX_BUFFER then joined[|joined| - KEPT_TAIL..] else joined
  }

  function FeedTitles(pending: Text, chunk: Text): seq<Text> {
    if chunk == [] then [] else Titles(Buffered(pending, chunk), 0)
  }

  function FeedPending(pending: Text, chunk: Text): Text {
    if chunk == [] then pending
    else
      var buffer := Buffered(pending, chunk);
      buffer[TitlesEnd(buffer, 0)..]
  }

  function PendingAfter(chunks: seq<Text>): Text {
    if chunks == [] then []
    else FeedPending(PendingAfter(chunks[..|chunks| - 1]), chunks[|chunks| - 1])
  }

  function AllTitles(chunks: seq<Text>): seq<Text> {
    if chunks == [] then []
    else
      var before := chunks[..|chunks| - 1];
      AllTitles(before) + FeedTitles(PendingAfter(before), chunks[|chunks| - 1])
  }

  function Concat(chunks: seq<Text>): Text {
    if chunks == [] then [] else Concat(chunks[..|chunks| - 1]) + chunks[|chunks| - 1]
  }

  /** No buffer on the way had to be cut. */
  ghost predicate NeverCut(chunks: seq<Text>) {
    chunks == [] || (
      && NeverCut(chunks[..|chunks| - 1])
      && |PendingAfter(chunks[..|chunks| - 1])| + |chunks[|chunks| - 1]| <= MAX_BUFFER)
  }
}
