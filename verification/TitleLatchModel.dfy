/**
 The debounced classifier behind the titles: which signals a run of titles gives, with an explicit clock
 and the stabilization timer as a deadline on it.
 */
module TitleLatchModel {
  import opened Options
  import opened OscTitleModel

  // ---------------------------------------------------------------- reading a title

  datatype TitleKind = Ignore | Working | AwaitingInput | Ready | Unknown

  /** What the adapter is told of its session: not yet, that there is no directory, or its name. */
  datatype TitleContext = TitleContext(cwdBasename: Option<Option<Text>>)

  /** What is said anew replaces what was said. */
  function Merged(was: TitleContext, more: TitleContext): TitleContext {
    if more.cwdBasename.Some? then more else was
  }

  /** What an adapter says about titles; each part may be missing. */
  datatype Profile = Profile(
    classifyTitle: Option<(Text, TitleContext) -> string>,
    isSpinnerChar: Option<int -> bool>,
    isIdleChar: Option<int -> bool>,
    dropsLeadingAscii: bool)

  predicate IsBlank(u: CodeUnit) {
    || u <= 0x20 || 0x2000 <= u <= 0x200a
    || u in {0xa0, 0x1680, 0x2028, 0x2029, 0x202f, 0x205f, 0x3000, 0xfeff}
  }

  function Trimmed(title: Text): (rest: Text)
    ensures rest != [] ==> !IsBlank(rest[0])
  {
    if title != [] && IsBlank(title[0]) then Trimmed(title[1..]) else title
  }

  /** The first code point: a surrogate pair counts as one. */
  function CodePoint(text: Text): int
    requires text != []
  {
    if 0xd800 <= text[0] < 0xdc00 && |text| > 1 && 0xdc00 <= text[1] < 0xe000
    then (text[0] as int - 0xd800) * 0x400 + (text[1] as int - 0xdc00) + 0x1_0000
    else text[0] as int
  }

  function KindNamed(name: string): TitleKind {
    match name
    case "ignore" => Ignore
    case "working" => Working
    case "awaiting-input" => AwaitingInput
    case "ready" => Ready
    case _ => Unknown
  }

  function Classify(profile: Profile, context: TitleContext, trimmed: Text, glyph: int): TitleKind {
    if profile.classifyTitle.Some? then KindNamed(profile.classifyTitle.value(trimmed, context))
    else if profile.isSpinnerChar.Some? && profile.isSpinnerChar.value(glyph) then Working
    else if profile.isIdleChar.Some? && profile.isIdleChar.value(glyph) then Ready
    else if profile.dropsLeadingAscii && glyph <= 0x7f then Ignore
    else Unknown
  }

  // ---------------------------------------------------------------- the latch

  datatype LastKind = NoKind | WasWorking | WasAwaiting | IdlePending | WasReady | WasUnknown

  datatype Timer = Timer(deadline: nat, glyph: int)

  datatype Latch = Latch(
    hasSeenSpinner: bool, lastKind: LastKind, lastChar: Option<int>, timer: Option<Timer>, now: nat, isDestroyed: bool)

  /** What happened, in order: titles seen, signals emitted, and the calls that change the latch. */
  datatype Mark =
    | Seen(kind: TitleKind, glyph: int, at: nat)
    | Emitted(signal: TitleKind, glyph: int, at: nat)
    | WasReset
    | WasResynced

  datatype State = State(latch: Latch, log: seq<Mark>)

  const FRESH := State(Latch(false, NoKind, None, None, 0, false), [])

  datatype Event = Titling(kind: TitleKind, glyph: int) | Passing(time: nat) | Resyncing | Resetting | Destroying

  function Emit(s: State, signal: TitleKind, glyph: int): State {
    s.(log := s.log + [Emitted(signal, glyph, s.latch.now)])
  }

  /** A kind that is emitted at once, unless it is the last one. */
  function Switch(s: State, kind: LastKind, signal: TitleKind, glyph: int): State {
    var before := s.latch.lastKind;
    var switched := s.(latch := s.latch.(lastKind := kind, timer := None));
    if before == kind then switched else Emit(switched, signal, glyph)
  }

  function OnTitle(s: State, kind: TitleKind, glyph: int, ms: nat): State {
    if s.latch.isDestroyed then s
    else
      var seen := s.(log := s.log + [Seen(kind, glyph, s.latch.now)]);
      var marked := seen.(latch := seen.latch.(lastChar := Some(glyph)));
      match kind
      case Ignore => seen
      case Working => Switch(marked.(latch := marked.latch.(hasSeenSpinner := true)), WasWorking, Working, glyph)
      case AwaitingInput => Switch(marked, WasAwaiting, AwaitingInput, glyph)
      case Ready =>
        if marked.latch.hasSeenSpinner && marked.latch.lastKind != WasReady
        then marked.(latch :=
          marked.latch.(lastKind := IdlePending, timer := Some(Timer(marked.latch.now + ms, glyph))))
        else marked
      case Unknown =>
        if marked.latch.lastKind != WasUnknown then Switch(marked, WasUnknown, Unknown, glyph) else marked
  }

  /** Time goes by; a timer that comes due fires at its deadline. */
  function OnPassing(s: State, time: nat): State {
    var to := s.latch.now + time;
    if s.latch.timer.Some? && s.latch.timer.value.deadline <= to then
      var timer := s.latch.timer.value;
      var due := s.(latch := s.latch.(timer := None, now := timer.deadline));
      var fired :=
        if due.latch.isDestroyed || due.latch.lastKind != IdlePending then due
        else Emit(due.(latch := due.latch.(lastKind := WasReady)), Ready, timer.glyph);
      fired.(latch := fired.latch.(now := to))
    else s.(latch := s.latch.(now := to))
  }

  function Step(s: State, event: Event, ms: nat): State {
    match event
    case Titling(kind, glyph) => OnTitle(s, kind, glyph, ms)
    case Passing(time) => OnPassing(s, time)
    case Resyncing =>
      if s.latch.isDestroyed then s
      else
        var lastKind := if s.latch.lastKind == WasWorking then NoKind else s.latch.lastKind;
        State(s.latch.(lastKind := lastKind), s.log + [WasResynced])
    case Resetting =>
      if s.latch.isDestroyed then s
      else State(Latch(false, NoKind, None, None, s.latch.now, false), s.log + [WasReset])
    case Destroying => s.(latch := s.latch.(isDestroyed := true, timer := None))
  }

  function Run(events: seq<Event>, ms: nat): State {
    if events == [] then FRESH else Step(Run(events[..|events| - 1], ms), events[|events| - 1], ms)
  }

  // ---------------------------------------------------------------- titles as read from the stream

  function ProcessTitle(s: State, profile: Profile, context: TitleContext, title: Text, ms: nat): State {
    var trimmed := Trimmed(title);
    if trimmed == [] then s
    else
      var glyph := CodePoint(trimmed);
      OnTitle(s, Classify(profile, context, trimmed, glyph), glyph, ms)
  }

  function ProcessTitles(s: State, profile: Profile, context: TitleContext, titles: seq<Text>, ms: nat): State {
    if titles == [] then s
    else
      var before := ProcessTitles(s, profile, context, titles[..|titles| - 1], ms);
      ProcessTitle(before, profile, context, titles[|titles| - 1], ms)
  }
}
