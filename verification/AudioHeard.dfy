/** Stored mute states and levels, and the reports of their changes, read off the entries alone. */
module AudioHeard {
  import opened Common
  import opened AudioModel
  import opened AudioPresence
  import opened AudioBound
  import opened AudioLevels

  // ----- Mute states -----

  /** The last entry has a mute state, and its stream, after its own binding, is bound to `a`. */
  predicate MutesNow(inputs: seq<AudioInput>, a: string) {
    inputs != []
    && var x := Last(inputs);
       x.Stream? && x.info.streamId.Some? && x.info.muted.Some? && BoundTo(inputs, x.info.streamId.value, a)
  }

  /** The mute state of the last entry that has one for `a`. */
  function LastMute(inputs: seq<AudioInput>, a: string): Option<bool> {
    if inputs == [] then None
    else if MutesNow(inputs, a) then Some(Last(inputs).info.muted.value)
    else LastMute(Init(inputs), a)
  }

  /** The mute states for `a` that differ from the one before, unmuted to begin with. */
  function MuteChanges(inputs: seq<AudioInput>, a: string): seq<bool> {
    if inputs == [] then []
    else
      var before := MuteChanges(Init(inputs), a);
      if MutesNow(inputs, a) && Last(inputs).info.muted.value != (LastMute(Init(inputs), a) == Some(true))
      then before + [Last(inputs).info.muted.value] else before
  }

  /** The mute half of an entry, for a stream bound to `a` or not. */
  lemma {:induction false} SetMutedEntry(log: AudioLog, id: u32, muted: bool, a: string)
    ensures var after, streams := SetMuted(log, id, muted), log.adapter.streamToAttendee;
            && after.adapter.streamToAttendee == streams
            && if id in streams && streams[id] == a then
                 && a in after.adapter.muted && after.adapter.muted[a] == muted
                 && MuteEvents(after.events, a)
                    == MuteEvents(log.events, a) + if muted != StoredMute(log.adapter, a) then [muted] else []
               else SameMute(log, after, a)
  {
    var after := SetMuted(log, id, muted);
    if after.events != log.events {
      MuteEventsSnoc(log.events, Last(after.events), a);
    }
  }

  predicate SameMute(log: AudioLog, after: AudioLog, a: string) {
    && (a in after.adapter.muted <==> a in log.adapter.muted)
    && (a in log.adapter.muted ==> after.adapter.muted[a] == log.adapter.muted[a])
    && MuteEvents(after.events, a) == MuteEvents(log.events, a)
  }

  lemma {:induction false} BindKeepsMute(log: AudioLog, id: u32, who: Attendee, a: string)
    ensures SameMute(log, Bind(log, id, who), a)
  {
    MuteEventsSnoc(log.events, Joined(who), a);
  }

  lemma {:induction false} LeaveKeepsMute(log: AudioLog, id: u32, dropped: bool, a: string)
    ensures SameMute(log, Leave(log, id, dropped), a)
  {
    var after := Leave(log, id, dropped);
    if after.events != log.events {
      MuteEventsSnoc(log.events, Last(after.events), a);
    }
  }

  lemma {:induction false} MuteEntry(log: AudioLog, x: AudioInput, a: string)
    ensures var after := AudioStep(log, x);
            if x.Stream? && x.info.streamId.Some? && x.info.muted.Some?
               && x.info.streamId.value in after.adapter.streamToAttendee
               && after.adapter.streamToAttendee[x.info.streamId.value] == a
            then
              && a in after.adapter.muted && after.adapter.muted[a] == x.info.muted.value
              && MuteEvents(after.events, a) == MuteEvents(log.events, a)
                 + if x.info.muted.value != StoredMute(log.adapter, a) then [x.info.muted.value] else []
            else SameMute(log, after, a)
  {
    match x
    case Level(level) => LevelKeepsRoster(log, level);
    case Stream(e) =>
      if e.streamId.Some? {
        var id := e.streamId.value;
        var bound := if e.attendeeId.Some? then Bind(log, id, e.AttendeeOf()) else log;
        if e.attendeeId.Some? {
          BindKeepsMute(log, id, e.AttendeeOf(), a);
        }
        if e.muted.Some? {
          SetMutedEntry(bound, id, e.muted.value, a);
        } else if e.attendeeId.None? {
          LeaveKeepsMute(log, id, e.dropped == Some(true), a);
        }
      }
  }

  /**
   * Over any run, the stored mute state of an attendee is that of the last entry with one for a stream bound to them,
   * and the mute events about them are exactly its changes.
   */
  lemma {:induction false} MuteFollowsEntries(inputs: seq<AudioInput>, a: string)
    ensures var muted := AudioRun(inputs).adapter.muted;
            && (a in muted <==> LastMute(inputs, a).Some?)
            && (a in muted ==> muted[a] == LastMute(inputs, a).value)
    ensures MuteEvents(AudioRun(inputs).events, a) == MuteChanges(inputs, a)
  {
    if inputs != [] {
      MuteFollowsEntries(Init(inputs), a);
      MuteEntry(AudioRun(Init(inputs)), Last(inputs), a);
      if Last(inputs).Stream? && Last(inputs).info.streamId.Some? {
        BoundIsLive(inputs, Last(inputs).info.streamId.value, a);
      }
    }
  }

  // ----- Levels -----

  /** The attendee whose level the last entry, a metadata entry, reports: the one its stream was last bound to. */
  function Heard(inputs: seq<AudioInput>): Option<Attendee> {
    if inputs == [] || Last(inputs).Stream? || Last(inputs).level.streamId.None? then None
    else LastBinding(Init(inputs), Last(inputs).level.streamId.value)
  }

  predicate HeardFrom(inputs: seq<AudioInput>, a: string) {
    Heard(inputs).Some? && Heard(inputs).value.attendeeId == a
  }

  /** The last raw volume reported for a stream then bound to `a`. */
  function LastVolume(inputs: seq<AudioInput>, a: string): Option<u32> {
    if inputs == [] then None
    else if HeardFrom(inputs, a) && Last(inputs).level.volume.Some? then Last(inputs).level.volume
    else LastVolume(Init(inputs), a)
  }

  function LastSignal(inputs: seq<AudioInput>, a: string): Option<u32> {
    if inputs == [] then None
    else if HeardFrom(inputs, a) && Last(inputs).level.signalStrength.Some? then Last(inputs).level.signalStrength
    else LastSignal(Init(inputs), a)
  }

  /** The reported volumes that are on another step than the attendee's last one. */
  function VolumeChanges(inputs: seq<AudioInput>): seq<LevelUpdate> {
    if inputs == [] then []
    else
      var before, who := VolumeChanges(Init(inputs)), Heard(inputs);
      if who.None? || Last(inputs).level.volume.None? then before
      else
        var known, step :=
          LastVolume(Init(inputs), who.value.attendeeId), VolumeStepOf(Last(inputs).level.volume.value);
        if known.Some? && VolumeStepOf(known.value) == step then before
        else before + [LevelUpdate(who.value, Step(step, VOLUME_STEPS))]
  }

  function SignalChanges(inputs: seq<AudioInput>): seq<LevelUpdate> {
    if inputs == [] then []
    else
      var before, who := SignalChanges(Init(inputs)), Heard(inputs);
      if who.None? || Last(inputs).level.signalStrength.None? then before
      else
        var known, step :=
          LastSignal(Init(inputs), who.value.attendeeId), SignalStepOf(Last(inputs).level.signalStrength.value);
        if known.Some? && SignalStepOf(known.value) == step then before
        else before + [LevelUpdate(who.value, Step(step, SIGNAL_STEPS))]
  }

  /** `levels` holds the step `k` for `a`, or nothing. */
  predicate Holds(levels: map<string, real>, a: string, k: Option<int>, n: int)
    requires n > 0
  {
    (a in levels <==> k.Some?) && (a in levels ==> levels[a] == Step(k.value, n))
  }

  function VolumeHeld(inputs: seq<AudioInput>, a: string): Option<int> {
    var raw := LastVolume(inputs, a);
    if raw.Some? then Some(VolumeStepOf(raw.value)) else None
  }

  function SignalHeld(inputs: seq<AudioInput>, a: string): Option<int> {
    var raw := LastSignal(inputs, a);
    if raw.Some? then Some(SignalStepOf(raw.value)) else None
  }

  /** The stored level changes exactly when its step does. */
  lemma {:induction false} ChangedIsNewStep(levels: map<string, real>, a: string, known: Option<int>, k: int, n: int)
    requires (n == VOLUME_STEPS || n == SIGNAL_STEPS) && Holds(levels, a, known, n)
    ensures Changed(levels, a, Step(k, n)) <==> known != Some(k)
  {
    if known.Some? {
      StepDistance(known.value, k, n);
    }
  }

  /** The attendee a metadata entry is about, as the adapter looks them up. */
  lemma {:induction false} HeardIsOwner(inputs: seq<AudioInput>, x: AudioInput)
    requires x.Level?
    ensures var s := AudioRun(inputs).adapter;
            Heard(inputs + [x]) ==
            if x.level.streamId.Some? && x.level.streamId.value in s.streamToAttendee
            then Some(Owner(s, x.level.streamId.value)) else None
  {
    assert Init(inputs + [x]) == inputs;
    BindingsFollowHistory(inputs);
    if x.level.streamId.Some? {
      var id := x.level.streamId.value;
      assert LastBinding(inputs, id) == OwnerIfLive(AudioRun(inputs).adapter, id);
    }
  }

  lemma {:induction false} HeldAfter(inputs: seq<AudioInput>, e: LevelInfo, a: string)
    ensures var all := inputs + [Level(e)];
            && VolumeHeld(all, a) == (if HeardFrom(all, a) && e.volume.Some? then Some(VolumeStepOf(e.volume.value))
                                      else VolumeHeld(inputs, a))
            && SignalHeld(all, a) == (if HeardFrom(all, a) && e.signalStrength.Some?
                                      then Some(SignalStepOf(e.signalStrength.value)) else SignalHeld(inputs, a))
  {
    assert Init(inputs + [Level(e)]) == inputs;
  }

  ghost predicate LevelsHeard(log: AudioLog, inputs: seq<AudioInput>) {
    && (forall a :: Holds(log.adapter.volume, a, VolumeHeld(inputs, a), VOLUME_STEPS))
    && (forall a :: Holds(log.adapter.signal, a, SignalHeld(inputs, a), SIGNAL_STEPS))
    && log.volumes == VolumeChanges(inputs) && log.signals == SignalChanges(inputs)
  }

  /** `after` holds `k` for `a` if there is a new step, and what `before` does otherwise. */
  predicate StoresAt(before: map<string, real>, after: map<string, real>, a: string, k: Option<int>, n: int)
    requires n > 0
  {
    if k.Some? then a in after && after[a] == Step(k.value, n)
    else (a in after <==> a in before) && (a in before ==> after[a] == before[a])
  }

  lemma {:induction false} VolumeStored(log: AudioLog, e: LevelInfo, a: string)
    ensures var s, after := log.adapter, LevelStep(log, e).adapter;
            var here := e.streamId.Some? && e.streamId.value in s.streamToAttendee
                        && s.streamToAttendee[e.streamId.value] == a && e.volume.Some?;
            StoresAt(s.volume, after.volume, a, if here then Some(VolumeStepOf(e.volume.value)) else None, VOLUME_STEPS)
  {
    if e.volume.Some? {
      VolumeSteps(e.volume.value);
    }
  }

  lemma {:induction false} SignalStored(log: AudioLog, e: LevelInfo, a: string)
    ensures var s, after := log.adapter, LevelStep(log, e).adapter;
            var here := e.streamId.Some? && e.streamId.value in s.streamToAttendee
                        && s.streamToAttendee[e.streamId.value] == a && e.signalStrength.Some?;
            StoresAt(s.signal, after.signal, a,
                     if here then Some(SignalStepOf(e.signalStrength.value)) else None, SIGNAL_STEPS)
  {
    if e.signalStrength.Some? {
      SignalSteps(e.signalStrength.value);
    }
  }

  /** What a metadata entry stores for `a`. */
  lemma {:induction false} LevelStored(inputs: seq<AudioInput>, e: LevelInfo, a: string)
    requires Holds(AudioRun(inputs).adapter.volume, a, VolumeHeld(inputs, a), VOLUME_STEPS)
    requires Holds(AudioRun(inputs).adapter.signal, a, SignalHeld(inputs, a), SIGNAL_STEPS)
    ensures var after, all := LevelStep(AudioRun(inputs), e).adapter, inputs + [Level(e)];
            && Holds(after.volume, a, VolumeHeld(all, a), VOLUME_STEPS)
            && Holds(after.signal, a, SignalHeld(all, a), SIGNAL_STEPS)
  {
    HeardIsOwner(inputs, Level(e));
    HeldAfter(inputs, e, a);
    VolumeStored(AudioRun(inputs), e, a);
    SignalStored(AudioRun(inputs), e, a);
  }

  /** What a metadata entry reports, given the steps held for the attendee it is about. */
  lemma {:induction false} LevelReported(log: AudioLog, e: LevelInfo, volume: Option<int>, signal: Option<int>)
    requires e.streamId.Some? && e.streamId.value in log.adapter.streamToAttendee
    requires Holds(log.adapter.volume, Owner(log.adapter, e.streamId.value).attendeeId, volume, VOLUME_STEPS)
    requires Holds(log.adapter.signal, Owner(log.adapter, e.streamId.value).attendeeId, signal, SIGNAL_STEPS)
    ensures var who, after := Owner(log.adapter, e.streamId.value), LevelStep(log, e);
            && after.volumes == log.volumes
               + (if e.volume.None? || volume == Some(VolumeStepOf(e.volume.value)) then []
                  else [LevelUpdate(who, Step(VolumeStepOf(e.volume.value), VOLUME_STEPS))])
            && after.signals == log.signals
               + (if e.signalStrength.None? || signal == Some(SignalStepOf(e.signalStrength.value)) then []
                  else [LevelUpdate(who, Step(SignalStepOf(e.signalStrength.value), SIGNAL_STEPS))])
  {
    var a := Owner(log.adapter, e.streamId.value).attendeeId;
    if e.volume.Some? {
      VolumeSteps(e.volume.value);
      ChangedIsNewStep(log.adapter.volume, a, volume, VolumeStepOf(e.volume.value), VOLUME_STEPS);
    }
    if e.signalStrength.Some? {
      SignalSteps(e.signalStrength.value);
      ChangedIsNewStep(log.adapter.signal, a, signal, SignalStepOf(e.signalStrength.value), SIGNAL_STEPS);
    }
  }

  lemma {:induction false} UpdatesReported(inputs: seq<AudioInput>, e: LevelInfo)
    requires LevelsHeard(AudioRun(inputs), inputs)
    ensures LevelStep(AudioRun(inputs), e).volumes == VolumeChanges(inputs + [Level(e)])
    ensures LevelStep(AudioRun(inputs), e).signals == SignalChanges(inputs + [Level(e)])
  {
    var log, all := AudioRun(inputs), inputs + [Level(e)];
    assert Init(all) == inputs && Last(all) == Level(e);
    HeardIsOwner(inputs, Level(e));
    if Heard(all).Some? {
      var a := Heard(all).value.attendeeId;
      assert Holds(log.adapter.volume, a, VolumeHeld(inputs, a), VOLUME_STEPS);
      assert Holds(log.adapter.signal, a, SignalHeld(inputs, a), SIGNAL_STEPS);
      LevelReported(log, e, VolumeHeld(inputs, a), SignalHeld(inputs, a));
    }
  }

  /**
   * Over any run, the stored volume of an attendee is the step of the last raw volume reported for a stream then bound
   * to them, and there is none if there was none; the updates delivered are exactly the changes of step, each under the
   * name of the stream's last binding. Likewise for signal strength.
   */
  lemma {:induction false} LevelsFollowEntries(inputs: seq<AudioInput>)
    ensures LevelsHeard(AudioRun(inputs), inputs)
  {
    if inputs != [] {
      var init, x := Init(inputs), Last(inputs);
      LevelsFollowEntries(init);
      match x
      case Level(e) =>
        assert init + [x] == inputs;
        UpdatesReported(init, e);
        forall a
          ensures Holds(AudioRun(inputs).adapter.volume, a, VolumeHeld(inputs, a), VOLUME_STEPS)
          ensures Holds(AudioRun(inputs).adapter.signal, a, SignalHeld(inputs, a), SIGNAL_STEPS)
        {
          LevelStored(init, e, a);
        }
      case Stream(e) =>
        StreamKeepsLevels(AudioRun(init), e);
        forall a
          ensures VolumeHeld(inputs, a) == VolumeHeld(init, a)
          ensures SignalHeld(inputs, a) == SignalHeld(init, a)
        {
        }
    }
  }
}
