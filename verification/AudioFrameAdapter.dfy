/** `DefaultAudioFrameAdapter`: six maps updated in place, proved to follow the machine of `AudioModel`. */
module AudioFrameAdapter {
  import opened Common
  import opened AudioModel
  import opened AudioPresence
  import opened AudioLevels
  import opened AudioBound
  import opened AudioAlternation
  import opened AudioHeard

  /** Removing the leaving stream first does not change the outcome of the scan for a newer one. */
  lemma NewerStreamSurvivesLeave(before: Adapter, a: string, id: u32, after: Adapter)
    requires after.streamToAttendee == before.streamToAttendee - {id}
    ensures HasNewerStream(after, a, id) <==> HasNewerStream(before, a, id)
  {
    if HasNewerStream(before, a, id) {
      var o :| o in before.streamToAttendee && before.streamToAttendee[o] == a && o > id;
      assert after.streamToAttendee[o] == a;
    }
  }

  /** The entries of a stream info frame as inputs of the machine. */
  function StreamInputs(streams: seq<StreamInfo>): seq<AudioInput> {
    if streams == [] then [] else StreamInputs(Init(streams)) + [Stream(Last(streams))]
  }

  /** The entries of a metadata frame as inputs of the machine. */
  function LevelInputs(states: seq<LevelInfo>): seq<AudioInput> {
    if states == [] then [] else LevelInputs(Init(states)) + [Level(Last(states))]
  }

  /** Delivering a pending list as a batch, or nothing when it is empty, reports the same updates. */
  lemma {:induction false} DeliveredBatch(batches: seq<seq<LevelUpdate>>, pending: seq<LevelUpdate>)
    ensures pending == [] ==> Flatten(batches) + pending == Flatten(batches) + []
    ensures Flatten(batches + [pending]) + [] == Flatten(batches) + pending
  {
    assert Init(batches + [pending]) == batches && Last(batches + [pending]) == pending;
    var all := Flatten(batches) + pending;
    assert all + [] == all;
  }

  class DefaultAudioFrameAdapter {
    var streamIdToAttendeeId: map<u32, string>
    var streamIdToExternalUserId: map<u32, string>
    var attendeeIdToStreamId: map<string, u32>
    var attendeeIdToMuted: map<string, bool>
    var attendeeIdToVolume: map<string, real>
    var attendeeIdToSignalStrength: map<string, real>

    /** The entries handled so far, and what the observers were told: single events and batches of updates. */
    ghost var history: seq<AudioInput>
    ghost var events: seq<AudioEvent>
    ghost var volumeBatches: seq<seq<LevelUpdate>>
    ghost var signalBatches: seq<seq<LevelUpdate>>

    ghost function Snapshot(): Adapter
      reads this
    {
      Adapter(streamIdToAttendeeId, streamIdToExternalUserId, attendeeIdToStreamId,
              attendeeIdToMuted, attendeeIdToVolume, attendeeIdToSignalStrength)
    }

    /** The state and all reports, counting `volumes` and `signals` as delivered after the batches. */
    ghost function Log(volumes: seq<LevelUpdate>, signals: seq<LevelUpdate>): AudioLog
      reads this
    {
      AudioLog(Snapshot(), events, Flatten(volumeBatches) + volumes, Flatten(signalBatches) + signals)
    }

    /** The object is where the machine is after its history, once the pending updates are delivered. */
    ghost predicate Following(volumes: seq<LevelUpdate>, signals: seq<LevelUpdate>)
      reads this
    {
      Log(volumes, signals) == AudioRun(history)
    }

    /** The object is where the machine is after its history, and its observers were told what the machine reports. */
    ghost predicate Valid()
      reads this
    {
      Following([], [])
    }

    /** Closes the handling of one stream entry that took the adapter one machine step from `before`. */
    ghost method Record(x: StreamInfo, before: AudioLog)
      requires before == AudioRun(history) && Log([], []) == StreamStep(before, x)
      modifies `history
      ensures Valid() && history == old(history) + [Stream(x)]
    {
      AudioRunSnoc(history, Stream(x));
      history := history + [Stream(x)];
    }

    constructor ()
      ensures Valid() && history == []
    {
      streamIdToAttendeeId, streamIdToExternalUserId, attendeeIdToStreamId := map[], map[], map[];
      attendeeIdToMuted, attendeeIdToVolume, attendeeIdToSignalStrength := map[], map[], map[];
      history, events, volumeBatches, signalBatches := [], [], [], [];
    }

    /** The scan for a newer live stream of the attendee. */
    method AttendeeHasNewStreamId(attendeeId: string, streamId: u32) returns (found: bool)
      ensures found <==> HasNewerStream(Snapshot(), attendeeId, streamId)
    {
      var rest := streamIdToAttendeeId.Keys;
      while rest != {}
        invariant rest <= streamIdToAttendeeId.Keys
        invariant forall o |
            o in streamIdToAttendeeId.Keys - rest :: !(streamIdToAttendeeId[o] == attendeeId && o > streamId)
        decreases rest
      {
        var other :| other in rest;
        if streamIdToAttendeeId[other] == attendeeId && other > streamId {
          return true;
        }
        rest := rest - {other};
      }
      return false;
    }

    /** `OnAudioStreamIdInfo`. */
    method OnAudioStreamIdInfo(streams: seq<StreamInfo>)
      requires Valid()
      modifies this
      ensures Valid() && history == old(history) + StreamInputs(streams)
      ensures volumeBatches == old(volumeBatches) && signalBatches == old(signalBatches)
    {
      for i := 0 to |streams|
        invariant Valid()
        invariant history == old(history) + StreamInputs(streams[..i])
        invariant volumeBatches == old(volumeBatches) && signalBatches == old(signalBatches)
      {
        PrefixSnoc(streams, i);
        AppendAssociative(old(history), StreamInputs(streams[..i]), [Stream(streams[i])]);
        OnStream(streams[i]);
      }
      assert streams[..|streams|] == streams;
    }

    /** The loop body of `OnAudioStreamIdInfo`. */
    method OnStream(stream: StreamInfo)
      requires Valid()
      modifies this
      ensures Valid() && history == old(history) + [Stream(stream)]
      ensures volumeBatches == old(volumeBatches) && signalBatches == old(signalBatches)
    {
      if stream.streamId.Some? {
        HandleStream(stream.streamId.value, stream);
      }
      Record(stream, old(Log([], [])));
    }

    method HandleStream(streamId: u32, stream: StreamInfo)
      requires stream.streamId == Some(streamId)
      modifies `streamIdToAttendeeId, `streamIdToExternalUserId, `attendeeIdToStreamId, `attendeeIdToMuted, `events
      ensures Log([], []) == StreamStep(old(Log([], [])), stream)
    {
      var hasAttendeeId, hasMuted := stream.attendeeId.Some?, stream.muted.Some?;
      if hasAttendeeId {
        var externalUserId := if stream.externalUserId.Some? then stream.externalUserId.value else "";
        HandleAttendee(streamId, stream.attendeeId.value, externalUserId);
      }
      if hasMuted {
        HandleMute(streamId, stream.muted.value);
      }
      if !hasAttendeeId && !hasMuted {
        HandleLeave(streamId, stream.dropped.Some? && stream.dropped.value);
      }
    }

    method HandleAttendee(streamId: u32, attendeeId: string, externalUserId: string)
      modifies `streamIdToAttendeeId, `streamIdToExternalUserId, `attendeeIdToStreamId, `events
      ensures Log([], []) == Bind(old(Log([], [])), streamId, Attendee(attendeeId, externalUserId))
    {
      if attendeeId !in attendeeIdToStreamId {
        events := events + [Joined(Attendee(attendeeId, externalUserId))];
      }
      attendeeIdToStreamId := attendeeIdToStreamId[attendeeId := streamId];
      streamIdToAttendeeId := streamIdToAttendeeId[streamId := attendeeId];
      streamIdToExternalUserId := streamIdToExternalUserId[streamId := externalUserId];
    }

    method HandleMute(streamId: u32, muted: bool)
      modifies `streamIdToExternalUserId, `attendeeIdToMuted, `events
      ensures Log([], []) == SetMuted(old(Log([], [])), streamId, muted)
    {
      if streamId !in streamIdToAttendeeId {
        return;
      }
      var attendeeId := streamIdToAttendeeId[streamId];
      var externalUserId := LookUpExternalUserId(streamId);
      assert Owner(old(Snapshot()), streamId) == Attendee(attendeeId, externalUserId);
      assert streamIdToExternalUserId == old(streamIdToExternalUserId)[streamId := externalUserId];
      if attendeeId !in attendeeIdToMuted {
        if muted {
          events := events + [Muted(Attendee(attendeeId, externalUserId))];
        }
      } else if attendeeIdToMuted[attendeeId] != muted {
        if muted {
          events := events + [Muted(Attendee(attendeeId, externalUserId))];
        } else {
          events := events + [Unmuted(Attendee(attendeeId, externalUserId))];
        }
      }
      attendeeIdToMuted := attendeeIdToMuted[attendeeId := muted];
    }

    method HandleLeave(streamId: u32, dropped: bool)
      modifies `streamIdToAttendeeId, `streamIdToExternalUserId, `attendeeIdToStreamId, `events
      ensures Log([], []) == Leave(old(Log([], [])), streamId, dropped)
    {
      if streamId !in streamIdToAttendeeId {
        return;
      }
      var attendeeId := streamIdToAttendeeId[streamId];
      var externalUserId := LookUpExternalUserId(streamId);
      ghost var before := old(Log([], [])).adapter;
      streamIdToAttendeeId := streamIdToAttendeeId - {streamId};
      streamIdToExternalUserId := streamIdToExternalUserId - {streamId};
      assert streamIdToExternalUserId == before.streamToExternal - {streamId};
      if attendeeId in attendeeIdToStreamId {
        attendeeIdToStreamId := attendeeIdToStreamId - {attendeeId};
      }
      assert attendeeIdToStreamId == before.attendeeToStream - {attendeeId};
      var attendeeHasNewStreamId := AttendeeHasNewStreamId(attendeeId, streamId);
      NewerStreamSurvivesLeave(before, attendeeId, streamId, Snapshot());
      if !attendeeHasNewStreamId {
        if dropped {
          events := events + [Dropped(Attendee(attendeeId, externalUserId))];
        } else {
          events := events + [Left(Attendee(attendeeId, externalUserId))];
        }
      }
    }

    /** `stream_id_to_external_user_id_[streamId]`, which inserts an empty string when there is none. */
    method LookUpExternalUserId(streamId: u32) returns (externalUserId: string)
      modifies this`streamIdToExternalUserId
      ensures streamId in streamIdToExternalUserId && externalUserId == streamIdToExternalUserId[streamId]
      ensures streamIdToExternalUserId ==
              if streamId in old(streamIdToExternalUserId) then old(streamIdToExternalUserId)
              else old(streamIdToExternalUserId)[streamId := ""]
    {
      if streamId !in streamIdToExternalUserId {
        streamIdToExternalUserId := streamIdToExternalUserId[streamId := ""];
      }
      externalUserId := streamIdToExternalUserId[streamId];
    }

    /** `OnAudioMetadata`: the changes of the whole frame go out as one batch of each kind. */
    method OnAudioMetadata(states: seq<LevelInfo>)
      requires Valid()
      modifies this
      ensures Valid() && history == old(history) + LevelInputs(states)
      ensures events == old(events)
      ensures volumeBatches == old(volumeBatches)
           || (|volumeBatches| > 0 && Init(volumeBatches) == old(volumeBatches) && Last(volumeBatches) != [])
      ensures signalBatches == old(signalBatches)
           || (|signalBatches| > 0 && Init(signalBatches) == old(signalBatches) && Last(signalBatches) != [])
    {
      var volumeUpdates: seq<LevelUpdate> := [];
      var signalStrengthUpdates: seq<LevelUpdate> := [];
      for i := 0 to |states|
        invariant Following(volumeUpdates, signalStrengthUpdates)
        invariant history == old(history) + LevelInputs(states[..i])
        invariant volumeBatches == old(volumeBatches) && signalBatches == old(signalBatches) && events == old(events)
      {
        PrefixSnoc(states, i);
        AppendAssociative(old(history), LevelInputs(states[..i]), [Level(states[i])]);
        volumeUpdates, signalStrengthUpdates := OnState(states[i], volumeUpdates, signalStrengthUpdates);
      }
      assert states[..|states|] == states;
      SendUpdates(volumeUpdates, signalStrengthUpdates);
    }

    /** Delivers the pending updates, if any. */
    method SendUpdates(volumeUpdates: seq<LevelUpdate>, signalStrengthUpdates: seq<LevelUpdate>)
      requires Following(volumeUpdates, signalStrengthUpdates)
      modifies `volumeBatches, `signalBatches
      ensures Valid()
      ensures volumeBatches == old(volumeBatches) + if volumeUpdates == [] then [] else [volumeUpdates]
      ensures signalBatches == old(signalBatches) + if signalStrengthUpdates == [] then [] else [signalStrengthUpdates]
    {
      DeliveredBatch(volumeBatches, volumeUpdates);
      DeliveredBatch(signalBatches, signalStrengthUpdates);
      if volumeUpdates != [] {
        volumeBatches := volumeBatches + [volumeUpdates];
      }
      if signalStrengthUpdates != [] {
        signalBatches := signalBatches + [signalStrengthUpdates];
      }
    }

    method OnState(state: LevelInfo, volumeUpdates: seq<LevelUpdate>, signalStrengthUpdates: seq<LevelUpdate>)
      returns (volumes: seq<LevelUpdate>, signals: seq<LevelUpdate>)
      requires Following(volumeUpdates, signalStrengthUpdates)
      modifies `attendeeIdToVolume, `attendeeIdToSignalStrength, `history
      ensures Following(volumes, signals) && history == old(history) + [Level(state)]
    {
      volumes, signals := HandleLevels(state, volumeUpdates, signalStrengthUpdates);
      AudioRunSnoc(history, Level(state));
      history := history + [Level(state)];
    }

    /** The loop body of `OnAudioMetadata`: extends the two pending lists. */
    method HandleLevels(state: LevelInfo, volumeUpdates: seq<LevelUpdate>, signalStrengthUpdates: seq<LevelUpdate>)
      returns (volumes: seq<LevelUpdate>, signals: seq<LevelUpdate>)
      modifies `attendeeIdToVolume, `attendeeIdToSignalStrength
      ensures Log(volumes, signals) == LevelStep(old(Log(volumeUpdates, signalStrengthUpdates)), state)
    {
      volumes, signals := volumeUpdates, signalStrengthUpdates;
      if state.streamId.None? || state.streamId.value !in streamIdToAttendeeId {
        return;
      }
      var streamId := state.streamId.value;
      var attendeeId := streamIdToAttendeeId[streamId];
      var externalUserId := if streamId in streamIdToExternalUserId then streamIdToExternalUserId[streamId] else "";
      var who := Attendee(attendeeId, externalUserId);
      if state.volume.Some? {
        var newVolume := NormalizeVolume(state.volume.value);
        if attendeeId !in attendeeIdToVolume || !IsEqual(attendeeIdToVolume[attendeeId], newVolume) {
          volumes := volumes + [LevelUpdate(who, newVolume)];
          AppendAssociative(Flatten(volumeBatches), volumeUpdates, [LevelUpdate(who, newVolume)]);
        }
        attendeeIdToVolume := attendeeIdToVolume[attendeeId := newVolume];
      }
      if state.signalStrength.Some? {
        var newSignal := NormalizeSignalStrength(state.signalStrength.value);
        if attendeeId !in attendeeIdToSignalStrength || !IsEqual(attendeeIdToSignalStrength[attendeeId], newSignal) {
          signals := signals + [LevelUpdate(who, newSignal)];
          AppendAssociative(Flatten(signalBatches), signalStrengthUpdates, [LevelUpdate(who, newSignal)]);
        }
        attendeeIdToSignalStrength := attendeeIdToSignalStrength[attendeeId := newSignal];
      }
    }

    /** What the run theorems say of this object at any moment. */
    lemma Guarantees()
      requires Valid()
      ensures SafeThroughout(history) ==> forall a :: Present(events, a) <==> Live(Snapshot(), a)
      ensures forall a :: Present(events, a) <==> BoundSince(history, a)
      ensures forall a :: a in attendeeIdToStreamId <==> ListedSince(history, a)
      ensures NeverTakesOnlyStream(history) ==> forall a | Present(events, a) :: Live(Snapshot(), a)
      ensures NeverRebinds(history) ==> PointsBack(Snapshot()) && forall a | Present(events, a) :: Live(Snapshot(), a)
      ensures forall a :: Alternates(MuteEvents(events, a))
                       && (StoredMute(Snapshot(), a) <==> |MuteEvents(events, a)| % 2 == 1)
      ensures forall a :: (a in attendeeIdToMuted <==> LastMute(history, a).Some?)
                       && (a in attendeeIdToMuted ==> attendeeIdToMuted[a] == LastMute(history, a).value)
      ensures forall a :: MuteEvents(events, a) == MuteChanges(history, a)
      ensures forall a :: Holds(attendeeIdToVolume, a, VolumeHeld(history, a), VOLUME_STEPS)
                       && Holds(attendeeIdToSignalStrength, a, SignalHeld(history, a), SIGNAL_STEPS)
      ensures Flatten(volumeBatches) == VolumeChanges(history) && Flatten(signalBatches) == SignalChanges(history)
      ensures Replay(Flatten(volumeBatches)) == attendeeIdToVolume
      ensures Replay(Flatten(signalBatches)) == attendeeIdToSignalStrength
      ensures OnlyChanges(Flatten(volumeBatches)) && OnlyChanges(Flatten(signalBatches))
      ensures BindingsKept(Snapshot(), history)
      ensures NeverAgain(history) ==> PresenceAlternates(events)
    {
      forall a
        ensures Present(events, a) <==> BoundSince(history, a)
        ensures a in attendeeIdToStreamId <==> ListedSince(history, a)
      {
        PresenceFollowsEntries(history, a);
      }
      forall a
        ensures a in attendeeIdToMuted <==> LastMute(history, a).Some?
        ensures a in attendeeIdToMuted ==> attendeeIdToMuted[a] == LastMute(history, a).value
        ensures MuteEvents(events, a) == MuteChanges(history, a)
      {
        MuteFollowsEntries(history, a);
      }
      LevelsFollowEntries(history);
      NoGhostIff(history);
      PresenceAlternationIff(history);
      RosterAgreement(history);
      if NeverRebinds(history) {
        NoGhostAttendees(history);
        EntriesPointBack(history);
      }
      MuteAlternation(history);
      UpdatesRebuildCache(history);
      assert Flatten(volumeBatches) + [] == Flatten(volumeBatches);
      assert Flatten(signalBatches) + [] == Flatten(signalBatches);
      BindingsFollowHistory(history);
    }

    /** What the events of the next entry say. */
    lemma GuaranteesNext(e: StreamInfo)
      requires Valid() && e.streamId.Some?
      ensures var after := AudioStep(AudioRun(history), Stream(e)).events;
              && events <= after
              && forall i | |events| <= i < |after| :: Justified(after[i], e, Subject(history, e))
    {
      EventsNameLastBinding(history, e);
    }
  }
}
