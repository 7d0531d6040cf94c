// The shapes the capture toggle, the watchdog and the overlay share
// (src-tauri/src/audio_cmds.rs).
module CaptureState {

  // Whether one source is recording. A source whose slot holds a capture is
  // Live or Stalled; Failed and Off slots hold none.
  datatype SourceState = Off | Live | Stalled | Failed

  datatype Health = Health(loopback: SourceState, microphone: SourceState)

  datatype Phase = Idle | Starting | Listening | Degraded

  datatype Event = Event(phase: Phase, sources: Health)

  predicate Engaged(source: SourceState) {
    source.Live? || source.Stalled?
  }

  // DualCapture::is_active: some slot holds a capture.
  predicate Active(health: Health) {
    Engaged(health.loopback) || Engaged(health.microphone)
  }

  function PhaseOf(health: Health): (phase: Phase)
    ensures phase == Listening <==> health.loopback == Live && health.microphone == Live
    ensures phase == Idle <==> health.loopback !in {Live, Stalled} && health.microphone !in {Live, Stalled}
    ensures phase != Starting
  {
    match health
    case Health(Live, Live) => Listening
    case _ => if Active(health) then Degraded else Idle
  }

  function EventFromHealth(health: Health): Event {
    Event(PhaseOf(health), health)
  }

  function StartingEvent(health: Health): Event {
    Event(Starting, health)
  }

  const ALL_OFF := Health(Off, Off)

  const IDLE_EVENT := Event(Idle, ALL_OFF)

  // An event claims a capture whenever its phase is not Idle.
  predicate Claims(event: Event) {
    event.phase != Idle
  }

  // DualCapture::start: a slot that holds a capture keeps it, an empty one
  // comes up or records its failure.
  function Started(health: Health, loopbackUp: bool, microphoneUp: bool): Health {
    Health(StartedSource(health.loopback, loopbackUp), StartedSource(health.microphone, microphoneUp))
  }

  function StartedSource(source: SourceState, up: bool): SourceState {
    if Engaged(source) then source else if up then Live else Failed
  }

  // A device stalls or recovers on its own; no slot fills or empties by itself.
  function Drifted(health: Health, loopbackFlows: bool, microphoneFlows: bool): (drifted: Health)
    ensures Active(drifted) == Active(health)
  {
    Health(DriftedSource(health.loopback, loopbackFlows), DriftedSource(health.microphone, microphoneFlows))
  }

  function DriftedSource(source: SourceState, flows: bool): SourceState {
    if !Engaged(source) then source else if flows then Live else Stalled
  }
}
