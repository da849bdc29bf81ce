/**
 The merger of one session's status signals: a conflict window for `ready`, and a window in which
 repeated signals are dropped. The clock is explicit and the ready timer a deadline on it.
 */
module StatusModel {
  import opened Options

  datatype Windows = Windows(conflictMs: nat, dedupMs: nat)

  /** A signal as it comes in; what is missing or empty is filled in. */
  datatype Raw = Raw(signal: string, source: Option<string>, confidence: Option<string>, ts: Option<int>)

  /** A signal with everything filled in. */
  datatype Signal = Signal(signal: string, source: Option<string>, confidence: string, ts: int)

  /** What happened, in order, and when. */
  datatype Mark =
    | Ingested(got: Signal, at: nat)
    | Emitted(sent: Signal, at: nat)
    | Meta(told: Signal, at: nat)
    | WindowClosed(at: nat)
    | WasReset

  datatype Pending = Pending(source: Option<string>, confidence: string, ts: int, deadline: nat)

  datatype State = State(pending: Option<Pending>, last: Option<Signal>, now: nat, isDestroyed: bool, log: seq<Mark>)

  const FRESH := State(None, None, 0, false, [])

  const HIGH := "high"

  function Rank(confidence: string): nat {
    if confidence == HIGH then 1 else 0
  }

  function UsualConfidence(source: Option<string>): string {
    if source == Some("hook") then HIGH else "low"
  }

  function Fill(raw: Raw, now: nat): Signal {
    var confidence :=
      if raw.confidence.Some? && raw.confidence.value != "" then raw.confidence.value else UsualConfidence(raw.source);
    Signal(raw.signal, raw.source, confidence, if raw.ts.Some? then raw.ts.value else now)
  }

  predicate IsActivity(signal: string) {
    signal in {"working", "resume"}
  }

  predicate IsImmediate(signal: string) {
    signal in {"working", "awaiting-input", "resume", "session-start", "session-end"}
  }

  /** A repetition of the last emitted signal that is too soon and no more certain. */
  predicate IsRepeat(last: Option<Signal>, next: Signal, windows: Windows) {
    && last.Some? && last.value.signal == next.signal
    && next.ts - last.value.ts < windows.dedupMs
    && Rank(next.confidence) <= Rank(last.value.confidence)
  }

  function Resolve(s: State, next: Signal, windows: Windows): State {
    if IsRepeat(s.last, next, windows) then s
    else s.(last := Some(next), log := s.log + [Emitted(next, s.now)])
  }

  function Ingest(s: State, raw: Raw, windows: Windows): State {
    if s.isDestroyed || raw.signal == "" then s
    else
      var got := Fill(raw, s.now);
      var heard := s.(log := s.log + [Ingested(got, s.now)]);
      if got.signal == "unknown" then heard.(log := heard.log + [Meta(got, s.now)])
      else if got.signal == "awaiting-input" then Resolve(heard.(pending := None), got, windows)
      else if got.signal == "ready" then
        if s.pending.None?
        then heard.(pending := Some(Pending(got.source, got.confidence, got.ts, s.now + windows.conflictMs)))
        else if got.confidence == HIGH && s.pending.value.confidence != HIGH
        then heard.(pending := Some(Pending(got.source, got.confidence, got.ts, s.pending.value.deadline)))
        else heard
      else if IsImmediate(got.signal) then
        Resolve(if IsActivity(got.signal) then heard.(pending := None) else heard, got, windows)
      else heard
  }

  /** Time goes by; a conflict window that ends resolves its `ready` at its deadline. */
  function OnPassing(s: State, time: nat, windows: Windows): State {
    var to := s.now + time;
    if s.pending.Some? && s.pending.value.deadline <= to then
      var p := s.pending.value;
      var closed := s.(pending := None, now := p.deadline, log := s.log + [WindowClosed(p.deadline)]);
      Resolve(closed, Signal("ready", p.source, p.confidence, p.ts), windows).(now := to)
    else s.(now := to)
  }

  datatype Event = Ingesting(raw: Raw) | Passing(time: nat) | Resetting | Destroying

  function Step(s: State, event: Event, windows: Windows): State {
    match event
    case Ingesting(raw) => Ingest(s, raw, windows)
    case Passing(time) => OnPassing(s, time, windows)
    case Resetting => s.(pending := None, last := None, log := s.log + [WasReset])
    case Destroying => s.(isDestroyed := true, pending := None)
  }

  function Run(events: seq<Event>, windows: Windows): State {
    if events == [] then FRESH
    else Step(Run(events[..|events| - 1], windows), events[|events| - 1], windows)
  }
}
