/**
 * The state of `DefaultAudioFrameAdapter` and what one entry of an audio frame does to it. Entries of the two kinds of
 * frame are inputs of one machine, so that a run is any interleaving of them.
 */
module AudioModel {
  import opened Common

  /** One element of an audio stream id info frame. */
  datatype StreamInfo = StreamInfo(
    streamId: Option<u32>, attendeeId: Option<string>, muted: Option<bool>,
    externalUserId: Option<string>, dropped: Option<bool>)
  {
    function AttendeeOf(): Attendee
      requires attendeeId.Some?
    {
      Attendee(attendeeId.value, externalUserId.GetOr(""))
    }

    /** The entry names a stream and its attendee. */
    predicate Binds() { streamId.Some? && attendeeId.Some? }

    /** The entry names a stream, but neither attendee nor mute state. */
    predicate Leaves() { streamId.Some? && attendeeId.None? && muted.None? }
  }

  /** One element of an audio metadata frame. */
  datatype LevelInfo = LevelInfo(streamId: Option<u32>, volume: Option<u32>, signalStrength: Option<u32>)

  datatype AudioEvent =
    | Joined(attendee: Attendee)
    | Left(attendee: Attendee)
    | Dropped(attendee: Attendee)
    | Muted(attendee: Attendee)
    | Unmuted(attendee: Attendee)

  /** A `VolumeUpdate` or a `SignalStrengthUpdate`. */
  datatype LevelUpdate = LevelUpdate(attendee: Attendee, level: real)

  datatype Adapter = Adapter(
    streamToAttendee: map<u32, string>,
    streamToExternal: map<u32, string>,
    attendeeToStream: map<string, u32>,
    muted: map<string, bool>,
    volume: map<string, real>,
    signal: map<string, real>)

  const EMPTY: Adapter := Adapter(map[], map[], map[], map[], map[], map[])

  datatype AudioInput = Stream(info: StreamInfo) | Level(level: LevelInfo)

  /** Everything an adapter has reached and reported; the update lists are in order of delivery. */
  datatype AudioLog = AudioLog(
    adapter: Adapter, events: seq<AudioEvent>, volumes: seq<LevelUpdate>, signals: seq<LevelUpdate>)

  const START: AudioLog := AudioLog(EMPTY, [], [], [])

  // ----- Normalisation -----

  const MAX_VOLUME_DECIBELS: int := -14
  const MIN_VOLUME_DECIBELS: int := -42
  const MAX_SIGNAL_STRENGTH: real := 2.0
  const EPSILON: real := 0.000001

  function Clip(x: real): real {
    if x < 0.0 then 0.0 else if x > 1.0 then 1.0 else x
  }

  /** A signed 32-bit integer: the value modulo 2^32, overflow wrapping around as on two's complement hardware. */
  function Int32(x: int): int {
    var low := x % 0x1_0000_0000;
    if low < 0x8000_0000 then low else low - 0x1_0000_0000
  }

  /** The negation is one of unsigned integers and is read back as a signed one. */
  function NormalizeVolume(volume: u32): real {
    var above := Int32(Int32(-(volume as int)) - MAX_VOLUME_DECIBELS);
    Clip(1.0 - above as real / (MIN_VOLUME_DECIBELS - MAX_VOLUME_DECIBELS) as real)
  }

  function NormalizeSignalStrength(strength: u32): real {
    Clip(strength as real / MAX_SIGNAL_STRENGTH)
  }

  predicate IsEqual(x: real, y: real) {
    -EPSILON < x - y < EPSILON
  }

  // ----- One stream entry -----

  /** The attendee half of an entry: a stream is bound to an attendee, who joins unless already listed. */
  function Bind(log: AudioLog, id: u32, who: Attendee): AudioLog {
    var s, a := log.adapter, who.attendeeId;
    log.(
      events := if a in s.attendeeToStream then log.events else log.events + [Joined(who)],
      adapter := s.(
        attendeeToStream := s.attendeeToStream[a := id],
        streamToAttendee := s.streamToAttendee[id := a],
        streamToExternal := s.streamToExternal[id := who.externalUserId]))
  }

  /** The attendee a live stream belongs to, as events name it. */
  function Owner(s: Adapter, id: u32): Attendee
    requires id in s.streamToAttendee
  {
    Attendee(s.streamToAttendee[id], if id in s.streamToExternal then s.streamToExternal[id] else "")
  }

  function StoredMute(s: Adapter, a: string): bool {
    a in s.muted && s.muted[a]
  }

  /** The mute half of an entry. Looking the external id up with `operator[]` inserts a missing one. */
  function SetMuted(log: AudioLog, id: u32, muted: bool): AudioLog {
    var s := log.adapter;
    if id !in s.streamToAttendee then log
    else
      var who := Owner(s, id);
      log.(
        events := if StoredMute(s, who.attendeeId) == muted then log.events
                  else log.events + [if muted then Muted(who) else Unmuted(who)],
        adapter := s.(
          streamToExternal := s.streamToExternal[id := who.externalUserId],
          muted := s.muted[who.attendeeId := muted]))
  }

  /** Some live stream of `a` has a larger id than `id`. */
  predicate HasNewerStream(s: Adapter, a: string, id: u32) {
    exists o | o in s.streamToAttendee :: s.streamToAttendee[o] == a && o > id
  }

  /** An entry with neither attendee nor mute state: the stream is gone. */
  function Leave(log: AudioLog, id: u32, dropped: bool): AudioLog {
    var s := log.adapter;
    if id !in s.streamToAttendee then log
    else
      var who := Owner(s, id);
      log.(
        events := if HasNewerStream(s, who.attendeeId, id) then log.events
                  else log.events + [if dropped then Dropped(who) else Left(who)],
        adapter := s.(
          streamToAttendee := s.streamToAttendee - {id},
          streamToExternal := s.streamToExternal - {id},
          attendeeToStream := s.attendeeToStream - {who.attendeeId}))
  }

  function StreamStep(log: AudioLog, e: StreamInfo): AudioLog {
    if e.streamId.None? then log
    else
      var id := e.streamId.value;
      var bound := if e.attendeeId.Some? then Bind(log, id, e.AttendeeOf()) else log;
      var muted := if e.muted.Some? then SetMuted(bound, id, e.muted.value) else bound;
      if e.attendeeId.None? && e.muted.None? then Leave(muted, id, e.dropped == Some(true)) else muted
  }

  // ----- One metadata entry -----

  predicate Changed(levels: map<string, real>, a: string, level: real) {
    a !in levels || !IsEqual(levels[a], level)
  }

  function VolumeStep(log: AudioLog, who: Attendee, level: real): AudioLog {
    var s := log.adapter;
    log.(
      volumes := if Changed(s.volume, who.attendeeId, level) then log.volumes + [LevelUpdate(who, level)]
          else log.volumes,
      adapter := s.(volume := s.volume[who.attendeeId := level]))
  }

  function SignalStep(log: AudioLog, who: Attendee, level: real): AudioLog {
    var s := log.adapter;
    log.(
      signals := if Changed(s.signal, who.attendeeId, level) then log.signals + [LevelUpdate(who, level)]
          else log.signals,
      adapter := s.(signal := s.signal[who.attendeeId := level]))
  }

  function LevelStep(log: AudioLog, e: LevelInfo): AudioLog {
    if e.streamId.None? || e.streamId.value !in log.adapter.streamToAttendee then log
    else
      var who := Owner(log.adapter, e.streamId.value);
      var heard := if e.volume.Some? then VolumeStep(log, who, NormalizeVolume(e.volume.value)) else log;
      if e.signalStrength.Some? then SignalStep(heard, who, NormalizeSignalStrength(e.signalStrength.value)) else heard
  }

  // ----- Runs -----

  function AudioStep(log: AudioLog, x: AudioInput): AudioLog {
    match x
    case Stream(info) => StreamStep(log, info)
    case Level(level) => LevelStep(log, level)
  }

  /** The log after the given entries, starting from a new adapter. */
  function AudioRun(inputs: seq<AudioInput>): AudioLog {
    if inputs == [] then START else AudioStep(AudioRun(Init(inputs)), Last(inputs))
  }

  lemma {:induction false} AudioRunSnoc(inputs: seq<AudioInput>, x: AudioInput)
    ensures AudioRun(inputs + [x]) == AudioStep(AudioRun(inputs), x)
  {
    assert Init(inputs + [x]) == inputs;
  }
}
