/** `DefaultSignalingClient`: its methods on its own fields, proved to follow the machine of `SignalingModel`. */
module SignalingClient {
  import opened Common
  import opened Sdp
  import opened StringOrder
  import opened SignalingModel
  import opened SignalingWire
  import opened SignalingIndex
  import opened SignalingSession
  import opened SignalingStreams
  import opened SignalingView
  import opened SignalingSources
  import opened SignalingAllocations
  import opened SignalingLocal
  import opened SignalingReports
  import AudioFrameAdapter
  import AudioModel

  // ----- Frames as they arrive -----

  /** `SdkSignalFrame` by type; `OtherType` stands for bitrates and unexpected types. */
  datatype SignalFrame =
    | JoinAckType(joinAck: JoinAck)
    | LeaveAckType
    | IndexType(index: Index)
    | SubscribeAckType(subAck: SubscribeAck)
    | DataMessageType(payloads: seq<DataPayload>)
    | AudioMetadataType(states: seq<AudioModel.LevelInfo>)
    | AudioStreamIdInfoType(streams: seq<AudioModel.StreamInfo>)
    | OtherType
  {
    /** What the frame is to the client's machine, which leaves audio frames to the adapter. */
    function AsInput(now: int): Input {
      match this
      case JoinAckType(ack) => JoinAckFrame(ack, now)
      case LeaveAckType => LeaveAckFrame
      case IndexType(index) => IndexFrame(index, now)
      case SubscribeAckType(ack) => SubscribeAckFrame(ack)
      case DataMessageType(payloads) => DataMessageFrame(payloads)
      case _ => OtherFrame
    }

    /** What the frame is to the adapter's machine. */
    function AsAudio(): seq<AudioModel.AudioInput> {
      match this
      case AudioMetadataType(states) => AudioFrameAdapter.LevelInputs(states)
      case AudioStreamIdInfoType(streams) => AudioFrameAdapter.StreamInputs(streams)
      case _ => []
    }
  }

  // ----- One step of each loop -----

  lemma {:induction false} EntrySnoc(
    directory: map<string, StreamConfig>, sources: seq<IndexSource>, s: IndexSource, a: string)
    requires a in directory || a in AttendeeIds(sources) || a == s.attendeeId
    ensures a in directory || a in AttendeeIds(sources + [s])
    ensures EntryFor(directory, sources + [s], a) ==
            if a != s.attendeeId then EntryFor(directory, sources, a)
            else if a in directory || a in AttendeeIds(sources)
            then EntryFor(directory, sources, a).(
                   attendee := Attendee(a, s.externalUserId), groupId := s.groupId, maxBitrateKbps := s.maxBitrateKbps)
            else StreamConfig(Attendee(a, s.externalUserId), s.streamId, s.groupId, s.maxBitrateKbps)
  {
    var all := sources + [s];
    assert Init(all) == sources && Last(all) == s;
    IdsSnoc(sources, s);
  }

  lemma {:induction false} AbsorbedSnoc(directory: map<string, StreamConfig>, sources: seq<IndexSource>, s: IndexSource)
    ensures var before := Absorbed(directory, sources);
            Absorbed(directory, sources + [s]) == before[s.attendeeId :=
              if s.attendeeId in before
              then before[s.attendeeId].(attendee := Attendee(s.attendeeId, s.externalUserId),
                                         groupId := s.groupId, maxBitrateKbps := s.maxBitrateKbps)
              else StreamConfig(Attendee(s.attendeeId, s.externalUserId), s.streamId, s.groupId, s.maxBitrateKbps)]
  {
    IdsSnoc(sources, s);
    var before, after := Absorbed(directory, sources), Absorbed(directory, sources + [s]);
    assert after.Keys == before.Keys + {s.attendeeId};
    forall a | a in after.Keys
      ensures after[a] == if a == s.attendeeId then after[s.attendeeId] else before[a]
    {
      EntrySnoc(directory, sources, s, a);
    }
    EntrySnoc(directory, sources, s, s.attendeeId);
  }

  /** Erasing the departed entries first does not change which sources are new. */
  lemma {:induction false} NewSourcesAfterErasing(
    directory: map<string, StreamConfig>, sources: seq<IndexSource>, prefix: seq<IndexSource>)
    requires AttendeeIds(prefix) <= AttendeeIds(sources)
    ensures NewSources(Remaining(directory, sources), prefix) == NewSources(directory, prefix)
  {
    if prefix != [] {
      assert Init(prefix) + [Last(prefix)] == prefix;
      IdsSnoc(Init(prefix), Last(prefix));
      NewSourcesAfterErasing(directory, sources, Init(prefix));
    }
  }

  function Only(added: map<string, SourceInfo>, mids: set<string>): map<string, SourceInfo> {
    map mid | mid in added && mid in mids :: added[mid]
  }

  lemma {:induction false} WithAddedInsert(c: Client, added: map<string, SourceInfo>, mids: set<string>, mid: string)
    requires mid in added && mid !in mids
    ensures var before, after := WithAdded(c, Only(added, mids)), WithAdded(c, Only(added, mids + {mid}));
            after ==
            if added[mid].attendee.attendeeId !in c.directory then before
            else before[mid := SubscriptionFor(c, added, mid)]
    ensures mid in WithAdded(c, Only(added, mids)) <==> mid in c.remoteVideo
    ensures mid in c.remoteVideo ==> WithAdded(c, Only(added, mids))[mid] == c.remoteVideo[mid]
  {
    var before, after := WithAdded(c, Only(added, mids)), WithAdded(c, Only(added, mids + {mid}));
    assert Only(added, mids + {mid})[mid] == added[mid];
    assert forall m | m != mid :: m in Only(added, mids) <==> m in Only(added, mids + {mid});
    assert forall m | m != mid :: m in before <==> m in after;
  }

  class DefaultSignalingClient {
    const cfg: Config
    /** Set once by the factory; without one, audio frames are dropped. */
    const audioFrameAdapter: AudioFrameAdapter.DefaultAudioFrameAdapter?
    var sdp: string
    var state: SignalingState
    var localVideoSources: map<string, StreamConfig>
    var localAudioSources: map<string, StreamConfig>
    var remoteVideoSources: map<string, StreamConfig>
    var attendeeIdToInternalConfigurations: map<string, StreamConfig>
    var isMuted: bool
    var hasReceivedFirstIndex: bool
    var turnCredentialsExpireTime: int
    var isJoined: bool
    var turnCredentials: TurnCredentials

    /** What happened to the client, what it put on the wire and what it told its observers. */
    ghost var history: seq<Input>
    ghost var sent: seq<WireFrame>
    ghost var events: seq<Event>

    ghost function Snapshot(): Log
      reads this
    {
      Log(Client(sdp, state, localVideoSources, localAudioSources, remoteVideoSources,
          attendeeIdToInternalConfigurations,
                 isMuted, hasReceivedFirstIndex, turnCredentialsExpireTime, isJoined, turnCredentials), sent, events)
    }

    /** The client, its wire and its observers are where the machine is after the client's history. */
    ghost predicate Valid()
      reads this
    {
      Snapshot() == Run(cfg, history)
    }

    constructor (cfg: Config, adapter: AudioFrameAdapter.DefaultAudioFrameAdapter?)
      ensures Valid() && history == [] && this.cfg == cfg && audioFrameAdapter == adapter
    {
      this.cfg, audioFrameAdapter := cfg, adapter;
      sdp, state := "", Idle;
      localVideoSources, localAudioSources, remoteVideoSources, attendeeIdToInternalConfigurations :=
          map[], map[], map[], map[];
      isMuted, hasReceivedFirstIndex, turnCredentialsExpireTime, isJoined := cfg.muteOnJoin, false, 0, false;
      turnCredentials := TurnCredentials("", "", 0, []);
      history, sent, events := [], [], [];
    }

    /** Closes a call or callback that took the client, its wire and its observers one machine step from `before`. */
    ghost method Record(x: Input, before: Log)
      requires before == Run(cfg, history) && Snapshot() == Step(cfg, before, x)
      modifies `history
      ensures Valid() && history == old(history) + [x]
    {
      RunSnoc(cfg, history, x);
      history := history + [x];
    }

    method SetLocalDescription(description: string)
      requires Valid()
      modifies this
      ensures Valid() && history == old(history) + [Input.SetLocalDescription(description)]
    {
      sdp := description;
      Record(Input.SetLocalDescription(description), old(Snapshot()));
    }

    /** `UpdateLocalVideo`, which is also `AddLocalVideo`. */
    method UpdateLocalVideo(mid: string, maxBitrateKbps: u32)
      requires Valid()
      modifies this
      ensures Valid() && history == old(history) + [Input.UpdateLocalVideo(mid, maxBitrateKbps)]
    {
      var exists' := mid in localVideoSources;
      var config := if exists' then localVideoSources[mid] else NO_CONFIG;
      config := config.(maxBitrateKbps := maxBitrateKbps);
      if !exists' {
        config := config.(attendee := Attendee(cfg.attendeeId, cfg.externalUserId));
      }
      localVideoSources := localVideoSources[mid := config];
      Record(Input.UpdateLocalVideo(mid, maxBitrateKbps), old(Snapshot()));
    }

    method RemoveLocalVideo(mid: string)
      requires Valid()
      modifies this
      ensures Valid() && history == old(history) + [Input.RemoveLocalVideo(mid)]
    {
      localVideoSources := localVideoSources - {mid};
      Record(Input.RemoveLocalVideo(mid), old(Snapshot()));
    }

    /** `UpdateLocalAudio`, which is also `AddLocalAudio`. */
    method UpdateLocalAudio(mid: string, mute: bool)
      requires Valid()
      modifies this
      ensures Valid() && history == old(history) + [Input.UpdateLocalAudio(mid, mute)]
    {
      if mid !in localAudioSources {
        localAudioSources := localAudioSources[mid := NO_CONFIG];
      }
      SetMute(mute);
      Record(Input.UpdateLocalAudio(mid, mute), old(Snapshot()));
    }

    method RemoveLocalAudio(mid: string)
      requires Valid()
      modifies this
      ensures Valid() && history == old(history) + [Input.RemoveLocalAudio(mid)]
    {
      localAudioSources := localAudioSources - {mid};
      Record(Input.RemoveLocalAudio(mid), old(Snapshot()));
    }

    method SetMute(mute: bool)
      modifies `isMuted, `sent
      ensures Snapshot() == SignalingModel.SetMute(old(Snapshot()), mute)
    {
      if isMuted == mute {
        return;
      }
      isMuted := mute;
      if state != Connected {
        return;
      }
      sent := sent + [AudioControl(mute)];
    }

    method SendDataMessage(m: DataMessageToSend)
      requires Valid()
      modifies this
      ensures Valid() && history == old(history) + [Input.SendDataMessage(m)]
    {
      ValidateAndSend(m);
      Record(Input.SendDataMessage(m), old(Snapshot()));
    }

    method ValidateAndSend(m: DataMessageToSend)
      modifies `sent, `events
      ensures Snapshot() == Step(cfg, old(Snapshot()), Input.SendDataMessage(m))
    {
      if state != Connected {
        return;
      }
      var errors: seq<DataMessageSendError> := [];
      if |m.data| > MAX_DATA_SIZE {
        errors := [DataMessageSendError(m.topic, m.data, InvalidDataMessageSize)];
      } else if !TopicMatches(m.topic) {
        errors := [DataMessageSendError(m.topic, m.data, InvalidTopic)];
      } else if m.lifetimeMs < 0 {
        errors := [DataMessageSendError(m.topic, m.data, InvalidLifeTimeMs)];
      }
      if errors != [] {
        events := events + [DataFailed(errors)];
        return;
      }
      sent := sent + [DataMessage(m)];
    }

    method Start()
      requires Valid()
      modifies this
      ensures Valid() && history == old(history) + [Input.Start]
    {
      state := Connecting;
      Record(Input.Start, old(Snapshot()));
    }

    method Stop()
      requires Valid()
      modifies this
      ensures Valid() && history == old(history) + [Input.Stop]
    {
      if state == Connected {
        sent := sent + [Leave];
        state := Disconnecting;
      }
      Record(Input.Stop, old(Snapshot()));
    }

    method OnSignalingConnected()
      requires Valid()
      modifies this
      ensures Valid() && history == old(history) + [SignalingConnected]
    {
      state := Connected;
      var flags := EXCLUDE_SELF_CONTENT_IN_INDEX;
      if cfg.enableAttendeeUpdate {
        flags := flags + HAS_STREAM_UPDATE;
      }
      sent := sent + [Join(PROTOCOL_VERSION, MAX_NUM_OF_VIDEOS, flags)];
      Record(SignalingConnected, old(Snapshot()));
    }

    method OnSignalingErrorReceived(description: string)
      requires Valid()
      modifies this
      ensures Valid() && history == old(history) + [SignalingError(description)]
    {
      state := Disconnected;
      isJoined := false;
      events := events + [Stopped(ClientError(description))];
      Record(SignalingError(description), old(Snapshot()));
    }

    method OnSignalingClosed()
      requires Valid()
      modifies this
      ensures Valid() && history == old(history) + [SignalingClosed]
    {
      state := Disconnected;
      isJoined := false;
      hasReceivedFirstIndex := false;
      events := events + [Stopped(ClosedOk)];
      Record(SignalingClosed, old(Snapshot()));
    }

    // ----- Subscribing -----

    method UpdateRemoteVideoSubscriptions(added: map<string, SourceInfo>, removed: seq<string>)
      requires Valid()
      modifies this
      ensures Valid() && history == old(history) + [Input.UpdateRemoteVideoSubscriptions(added, removed)]
    {
      AddSubscriptions(added);
      RemoveSubscriptions(removed);
      Record(Input.UpdateRemoteVideoSubscriptions(added, removed), old(Snapshot()));
    }

    method RemoveSubscriptions(removed: seq<string>)
      modifies `remoteVideoSources
      ensures remoteVideoSources == old(remoteVideoSources) - (set i | 0 <= i < |removed| :: removed[i])
    {
      for i := 0 to |removed|
        invariant remoteVideoSources == old(remoteVideoSources) - (set k | 0 <= k < i :: removed[k])
      {
        remoteVideoSources := remoteVideoSources - {removed[i]};
      }
    }

    method AddSubscriptions(added: map<string, SourceInfo>)
      modifies `remoteVideoSources
      ensures remoteVideoSources == WithAdded(old(Snapshot()).client, added)
    {
      ghost var c := old(Snapshot()).client;
      var pending := added.Keys;
      assert WithAdded(c, Only(added, {})) == c.remoteVideo;
      while pending != {}
        invariant pending <= added.Keys
        invariant remoteVideoSources == WithAdded(c, Only(added, added.Keys - pending))
        decreases pending
      {
        var mid :| mid in pending;
        WithAddedInsert(c, added, added.Keys - pending, mid);
        assert added.Keys - pending + {mid} == added.Keys - (pending - {mid});
        pending := pending - {mid};
        var attendeeId := added[mid].attendee.attendeeId;
        if attendeeId in attendeeIdToInternalConfigurations {
          var source := attendeeIdToInternalConfigurations[attendeeId];
          if mid !in remoteVideoSources {
            remoteVideoSources := remoteVideoSources[mid := source];
          } else {
            var subscribed := remoteVideoSources[mid].(
                groupId := source.groupId, maxBitrateKbps := added[mid].maxBitrateKbps);
            remoteVideoSources := remoteVideoSources[mid := subscribed];
          }
        }
      }
      assert Only(added, added.Keys - pending) == added;
    }

    /** `SendUpdates`; the result is whether a frame was sent. */
    method SendUpdates() returns (ok: bool)
      requires Valid()
      modifies this
      ensures Valid() && history == old(history) + [Input.SendUpdates]
      ensures ok <==> old(state) == Connected
    {
      ok := SendSubscribe();
      Record(Input.SendUpdates, old(Snapshot()));
    }

    method SendSubscribe() returns (ok: bool)
      modifies `sent
      ensures ok <==> old(state) == Connected
      ensures var before := old(Snapshot());
              Snapshot() == if ok then before.Send(Subscribe(BuildSubscription(cfg, before.client))) else before
    {
      if state != Connected {
        return false;
      }
      var mediaSections := ParseSdp(sdp);
      var duplex, streamDescriptors, receiveStreams := WalkSections(mediaSections);
      var sendStreams := [];
      if duplex == Duplex {
        sendStreams := streamDescriptors;
      }
      var audioHost := if cfg.audioHostUrl != "" then Some(cfg.audioHostUrl) else None;
      var audioMuted := if isMuted then Some(isMuted) else None;
      sent := sent + [Subscribe(Subscription(duplex, sendStreams, receiveStreams, sdp, audioHost, audioMuted))];
      return true;
    }

    /** The loop of `SendSubscribe` over the offer's sections. */
    method WalkSections(sections: seq<MediaSection>)
      returns (duplex: Service, descriptors: seq<SendDescriptor>, receiveStreams: seq<u32>)
      ensures duplex == if SendsVideo(sections) then Duplex else Rx
      ensures descriptors == Descriptors(Snapshot().client, sections)
      ensures receiveStreams == ReceiveIds(Snapshot().client, sections)
    {
      duplex, descriptors, receiveStreams := Rx, [], [];
      for i := 0 to |sections|
        invariant duplex == if SendsVideo(sections[..i]) then Duplex else Rx
        invariant descriptors == Descriptors(Snapshot().client, sections[..i])
        invariant receiveStreams == ReceiveIds(Snapshot().client, sections[..i])
      {
        var section := sections[i];
        PrefixSnoc(sections, i);
        SendsVideoSnoc(sections, i);
        if section.kind == Audio {
          if section.mid in localAudioSources {
            receiveStreams := receiveStreams + [0];
            descriptors := descriptors + [DescriptorOf(localAudioSources[section.mid])];
          }
        } else {
          if IsLocal(section.direction) && IsSending(section.direction) {
            duplex := Duplex;
          }
          if section.mid in localVideoSources {
            descriptors := descriptors + [DescriptorOf(localVideoSources[section.mid])];
          } else if section.mid in remoteVideoSources {
            if section.direction == Inactive {
              receiveStreams := receiveStreams + [0];
            } else {
              receiveStreams := receiveStreams + [remoteVideoSources[section.mid].streamId];
            }
          }
        }
      }
      assert sections[..|sections|] == sections;
    }

    lemma SendsVideoSnoc(sections: seq<MediaSection>, i: nat)
      requires i < |sections|
      ensures SendsVideo(sections[..i + 1]) <==>
              SendsVideo(sections[..i]) || (sections[i].kind == Video && IsSending(sections[i].direction))
    {
      if SendsVideo(sections[..i]) {
        var k :| 0 <= k < i && sections[..i][k].kind == Video && IsSending(sections[..i][k].direction);
        assert sections[..i + 1][k] == sections[..i][k];
      }
      assert sections[..i + 1][i] == sections[i];
    }

    // ----- Frames received -----

    method OnJoinAck(joinAck: JoinAck, now: int)
      requires Valid()
      modifies this
      ensures Valid() && history == old(history) + [JoinAckFrame(joinAck, now)]
    {
      UpdateTurnCredentials(joinAck, now);
      Record(JoinAckFrame(joinAck, now), old(Snapshot()));
    }

    method UpdateTurnCredentials(joinAck: JoinAck, now: int)
      modifies `turnCredentialsExpireTime, `turnCredentials, `isJoined
      ensures Snapshot() == Step(cfg, old(Snapshot()), JoinAckFrame(joinAck, now))
    {
      if joinAck.turnCredentials.None? {
        return;
      }
      var creds := joinAck.turnCredentials.value;
      if creds.username.None? || creds.password.None? || creds.ttl.None? || creds.uris == [] {
        return;
      }
      turnCredentialsExpireTime := now + creds.ttl.value * TICKS_PER_SECOND;
      turnCredentials := TurnCredentials(creds.username.value, creds.password.value, creds.ttl.value, creds.uris);
      isJoined := true;
    }

    method OnLeaveAck()
      requires Valid()
      modifies this
      ensures Valid() && history == old(history) + [LeaveAckFrame]
    {
      state := Disconnected;
      Close();
      Record(LeaveAckFrame, old(Snapshot()));
    }

    /** `Close`, without the transport. */
    method Close()
      modifies `localVideoSources, `localAudioSources, `remoteVideoSources, `attendeeIdToInternalConfigurations
      ensures localVideoSources == localAudioSources == remoteVideoSources == attendeeIdToInternalConfigurations
          == map[]
    {
      localVideoSources, localAudioSources := map[], map[];
      remoteVideoSources, attendeeIdToInternalConfigurations := map[], map[];
    }

    method OnIndex(index: Index, now: int)
      requires Valid()
      modifies this
      ensures Valid() && history == old(history) + [IndexFrame(index, now)]
    {
      DirectoryKeyed(cfg, history);
      HandleIndexFrame(index, now);
      Record(IndexFrame(index, now), old(Snapshot()));
    }

    /** `HandleIndexFrame`. */
    method HandleIndexFrame(index: Index, now: int)
      requires KeyedById(attendeeIdToInternalConfigurations)
      modifies `attendeeIdToInternalConfigurations, `hasReceivedFirstIndex, `events
      ensures Snapshot() == HandleIndex(old(Snapshot()), index, now)
    {
      if state != Connected || !isJoined {
        return;
      }
      if index.atCapacity == Some(true) {
        return;
      }
      var removed, introduced := RefreshDirectory(index.sources);
      ReportIndex(removed, introduced, now);
      assert events == old(events) + IndexEvents(old(Snapshot()).client, index, now);
    }

    /** The end of `HandleIndexFrame`: what observers are told. */
    method ReportIndex(removed: seq<SourceInfo>, introduced: seq<SourceInfo>, now: int)
      modifies `hasReceivedFirstIndex, `events
      ensures hasReceivedFirstIndex
      ensures events == old(events) +
              if old(hasReceivedFirstIndex) then
                (if introduced == [] then [] else [Available(introduced)])
                + (if removed == [] then [] else [Unavailable(removed)])
              else if now - turnCredentialsExpireTime > 0 then []
              else [Started(turnCredentials, introduced)]
    {
      if !hasReceivedFirstIndex {
        hasReceivedFirstIndex := true;
        if now - turnCredentialsExpireTime > 0 {
          return;
        }
        events := events + [Started(turnCredentials, introduced)];
        return;
      }
      if introduced != [] {
        events := events + [Available(introduced)];
      }
      if removed != [] {
        events := events + [Unavailable(removed)];
      }
    }

    /** The three loops of `HandleIndexFrame`: find who is gone, erase them, take in the sources. */
    method RefreshDirectory(sources: seq<IndexSource>) returns (removed: seq<SourceInfo>, introduced: seq<SourceInfo>)
      requires KeyedById(attendeeIdToInternalConfigurations)
      modifies `attendeeIdToInternalConfigurations
      ensures var directory := old(attendeeIdToInternalConfigurations);
              && removed == Departed(directory, sources)
              && introduced == NewSources(directory, sources)
              && attendeeIdToInternalConfigurations == Refreshed(directory, sources)
    {
      ghost var directory := attendeeIdToInternalConfigurations;
      removed := FindDeparted(sources);
      EraseDeparted(removed);
      DepartedExact(directory, sources);
      assert attendeeIdToInternalConfigurations == Remaining(directory, sources);
      introduced := TakeIn(sources);
      NewSourcesAfterErasing(directory, sources, sources);
    }

    /** `std::find_if` over the sources of the frame. */
    method IsMentioned(sources: seq<IndexSource>, attendeeId: string) returns (found: bool)
      ensures found <==> attendeeId in AttendeeIds(sources)
    {
      for i := 0 to |sources|
        invariant forall k | 0 <= k < i :: sources[k].attendeeId != attendeeId
      {
        if sources[i].attendeeId == attendeeId {
          return true;
        }
      }
      return false;
    }

    /** The loop over the directory, whose iterator meets the keys in ascending order. */
    method FindDeparted(sources: seq<IndexSource>) returns (removed: seq<SourceInfo>)
      requires KeyedById(attendeeIdToInternalConfigurations)
      ensures removed == Departed(attendeeIdToInternalConfigurations, sources)
    {
      var directory := attendeeIdToInternalConfigurations;
      var pending := directory.Keys;
      removed := [];
      AscendingVisits(pending);
      while pending != {}
        invariant pending <= directory.Keys && forall k | k in Ascending(pending) :: k in directory
        invariant removed + DepartedAmong(directory, sources, Ascending(pending)) == Departed(directory, sources)
        decreases pending
      {
        LeastExists(pending);
        LeastUnique(pending);
        var key :| IsLeast(pending, key);
        DepartedStep(directory, sources, pending, key, removed);
        var config := directory[key];
        var found := IsMentioned(sources, config.attendee.attendeeId);
        if !found {
          var attendee := Attendee(config.attendee.attendeeId, config.attendee.externalUserId);
          removed := removed + [SourceInfo(attendee, config.maxBitrateKbps, 0)];
        }
        pending := pending - {key};
      }
    }

    lemma {:induction false} DepartedStep(
      directory: map<string, StreamConfig>, sources: seq<IndexSource>, pending: set<string>, key: string,
      removed: seq<SourceInfo>)
      requires IsLeast(pending, key) && pending <= directory.Keys
      ensures forall k | k in Ascending(pending) :: k in directory
      ensures forall k | k in Ascending(pending - {key}) :: k in directory
      ensures removed + DepartedAmong(directory, sources, Ascending(pending))
           == (if key in AttendeeIds(sources) then removed else removed + [DepartedInfo(directory[key])])
              + DepartedAmong(directory, sources, Ascending(pending - {key}))
    {
      LeastUnique(pending);
      AscendingVisits(pending);
      AscendingVisits(pending - {key});
      assert Ascending(pending) == [key] + Ascending(pending - {key});
      var rest := DepartedAmong(directory, sources, Ascending(pending - {key}));
      assert Ascending(pending)[1..] == Ascending(pending - {key});
      assert [] + rest == rest;
      AppendAssociative(removed, [DepartedInfo(directory[key])], rest);
    }

    method EraseDeparted(removed: seq<SourceInfo>)
      modifies `attendeeIdToInternalConfigurations
      ensures attendeeIdToInternalConfigurations == old(attendeeIdToInternalConfigurations) - InfoIds(removed)
    {
      for i := 0 to |removed|
        invariant attendeeIdToInternalConfigurations == old(attendeeIdToInternalConfigurations) - InfoIds(removed[..i])
      {
        PrefixSnoc(removed, i);
        InfoIdsSnoc(removed[..i], removed[i]);
        attendeeIdToInternalConfigurations := attendeeIdToInternalConfigurations - {removed[i].attendee.attendeeId};
      }
      assert removed[..|removed|] == removed;
    }

    method TakeIn(sources: seq<IndexSource>) returns (introduced: seq<SourceInfo>)
      modifies `attendeeIdToInternalConfigurations
      ensures introduced == NewSources(old(attendeeIdToInternalConfigurations), sources)
      ensures attendeeIdToInternalConfigurations == Absorbed(old(attendeeIdToInternalConfigurations), sources)
    {
      ghost var kept := attendeeIdToInternalConfigurations;
      introduced := [];
      assert Absorbed(kept, []) == kept by {
        assert AttendeeIds([]) == {};
      }
      for i := 0 to |sources|
        invariant introduced == NewSources(kept, sources[..i])
        invariant attendeeIdToInternalConfigurations == Absorbed(kept, sources[..i])
      {
        var stream := sources[i];
        PrefixSnoc(sources, i);
        AbsorbedSnoc(kept, sources[..i], stream);
        var directory := attendeeIdToInternalConfigurations;
        if stream.attendeeId !in directory {
          var attendee := Attendee(stream.attendeeId, stream.externalUserId);
          var config := StreamConfig(attendee, stream.streamId, stream.groupId, stream.maxBitrateKbps);
          attendeeIdToInternalConfigurations := directory[stream.attendeeId := config];
          introduced := introduced + [SourceInfo(attendee, stream.maxBitrateKbps, stream.streamId)];
        } else {
          var config := directory[stream.attendeeId].(
            maxBitrateKbps := stream.maxBitrateKbps,
            attendee := Attendee(stream.attendeeId, stream.externalUserId),
            groupId := stream.groupId);
          attendeeIdToInternalConfigurations := directory[stream.attendeeId := config];
        }
      }
      assert sources[..|sources|] == sources;
    }

    method OnSubscribeAck(subAck: SubscribeAck)
      requires Valid()
      modifies this
      ensures Valid() && history == old(history) + [SubscribeAckFrame(subAck)]
    {
      HandleSubAckFrame(subAck);
      Record(SubscribeAckFrame(subAck), old(Snapshot()));
    }

    /** `HandleSubAckFrame`. */
    method HandleSubAckFrame(subAck: SubscribeAck)
      modifies `localAudioSources, `localVideoSources, `events
      ensures Snapshot() == HandleSubscribeAck(old(Snapshot()), subAck)
    {
      if subAck.sdpAnswer.None? {
        return;
      }
      var sdpAnswer := subAck.sdpAnswer.value;
      var mediaSections := ParseSdp(sdpAnswer);
      AssignAllocations(mediaSections, subAck.allocations);
      events := events + [RemoteDescription(sdpAnswer)];
    }

    method AssignAllocations(sections: seq<MediaSection>, allocations: seq<Allocation>)
      modifies `localAudioSources, `localVideoSources
      ensures Snapshot().client == Allocate(old(Snapshot()).client, sections, allocations, 0)
    {
      ghost var start := Snapshot().client;
      var allocationInd := 0;
      assert sections[0..] == sections;
      for i := 0 to |sections|
        invariant Allocate(Snapshot().client, sections[i..], allocations, allocationInd)
               == Allocate(start, sections, allocations, 0)
        invariant allocationInd >= 0
      {
        assert sections[i..][0] == sections[i] && sections[i..][1..] == sections[i + 1..];
        if allocationInd >= |allocations| || allocationInd >= |localAudioSources| + |localVideoSources| {
          break;
        }
        var mid, allocation := sections[i].mid, allocations[allocationInd];
        ghost var before := Snapshot().client;
        if mid in localAudioSources {
          localAudioSources := localAudioSources[mid := localAudioSources[mid].(groupId := allocation.groupId)];
          localAudioSources := localAudioSources[mid := localAudioSources[mid].(streamId := allocation.streamId)];
          allocationInd := allocationInd + 1;
          assert Snapshot().client.localAudio == GiveTo(before, mid, allocation).localAudio;
        } else if mid in localVideoSources {
          localVideoSources := localVideoSources[mid := localVideoSources[mid].(groupId := allocation.groupId)];
          localVideoSources := localVideoSources[mid := localVideoSources[mid].(streamId := allocation.streamId)];
          allocationInd := allocationInd + 1;
          assert Snapshot().client.localVideo == GiveTo(before, mid, allocation).localVideo;
        }
      }
    }

    method OnDataMessages(payloads: seq<DataPayload>)
      requires Valid()
      modifies this
      ensures Valid() && history == old(history) + [DataMessageFrame(payloads)]
    {
      HandleDataMessageFrame(payloads);
      Record(DataMessageFrame(payloads), old(Snapshot()));
    }

    /** `HandleDataMessageFrame`. */
    method HandleDataMessageFrame(payloads: seq<DataPayload>)
      modifies `events
      ensures Snapshot() == old(Snapshot()).(events := old(events) + DataEvents(payloads))
    {
      if |payloads| <= 0 {
        return;
      }
      var messages: seq<DataMessageReceived> := [];
      var errors: seq<DataMessageSendError> := [];
      for i := 0 to |payloads|
        invariant messages == ReceivedMessages(payloads[..i])
        invariant errors == ThrottledMessages(payloads[..i])
        invariant events == old(events)
      {
        var p := payloads[i];
        PrefixSnoc(payloads, i);
        if p.ingestTimeNs == 0 {
          errors := errors + [DataMessageSendError(p.topic, p.data, Throttled)];
        } else {
          messages := messages + [DataMessageReceived(
            p.topic, p.data, ToMilliseconds(p.ingestTimeNs), Attendee(p.senderAttendeeId, p.senderExternalUserId))];
        }
      }
      assert payloads[..|payloads|] == payloads;
      if messages != [] {
        events := events + [DataReceived(messages)];
      }
      if errors != [] {
        events := events + [DataFailed(errors)];
      }
    }

    /** `OnSignalFrameReceived`: audio frames go to the adapter if there is one, all others to their handlers. */
    method OnSignalFrameReceived(frame: SignalFrame, now: int)
      requires Valid()
      requires audioFrameAdapter != null ==> audioFrameAdapter.Valid()
      modifies this, audioFrameAdapter
      ensures Valid() && history == old(history) + [frame.AsInput(now)]
      ensures audioFrameAdapter != null ==>
                audioFrameAdapter.Valid()
                && audioFrameAdapter.history == old(audioFrameAdapter.history) + frame.AsAudio()
    {
      match frame
      case JoinAckType(ack) => OnJoinAck(ack, now);
      case LeaveAckType => OnLeaveAck();
      case IndexType(index) => OnIndex(index, now);
      case SubscribeAckType(ack) => OnSubscribeAck(ack);
      case DataMessageType(payloads) => OnDataMessages(payloads);
      case AudioMetadataType(states) =>
        OnOtherFrame();
        if audioFrameAdapter != null {
          audioFrameAdapter.OnAudioMetadata(states);
        }
      case AudioStreamIdInfoType(streams) =>
        OnOtherFrame();
        if audioFrameAdapter != null {
          audioFrameAdapter.OnAudioStreamIdInfo(streams);
        }
      case OtherType => OnOtherFrame();
    }

    ghost method OnOtherFrame()
      requires Valid()
      modifies this`history
      ensures Valid() && history == old(history) + [OtherFrame]
    {
      Record(OtherFrame, old(Snapshot()));
    }

    /** What the run theorems say of this object at any moment. */
    lemma Guarantees()
      requires Valid()
      // the wire
      ensures InWireLanguage(sent)
      ensures state == Connected && SubscribedSinceJoin(sent) ==> WireMute(sent) == Some(isMuted)
      ensures StrictlyAlternates(Controls(sent))
      // the session
      ensures SessionInvariant(Snapshot().client, history)
      ensures StartsSinceClose(events) == if StartedInTime(history) then 1 else 0
      ensures AnswersTold(events) == AnswersReceived(history)
      // the local side
      ensures forall mid :: LocalAs(cfg, Snapshot().client, history, mid)
      ensures forall mid | mid in localVideoSources ::
                var ids := IdsAllocated(cfg, history, MediaSection(Video, mid, SendRecv));
                localVideoSources[mid].streamId == ids.streamId && localVideoSources[mid].groupId == ids.groupId
      ensures forall mid | mid in localAudioSources ::
                var ids := IdsAllocated(cfg, history, MediaSection(Audio, mid, SendRecv));
                localAudioSources[mid].streamId == ids.streamId && localAudioSources[mid].groupId == ids.groupId
      // remote video
      ensures forall a | a in attendeeIdToInternalConfigurations ::
                a in ListedIds(history)
                && var entry, last := attendeeIdToInternalConfigurations[a], LastFor(LastSources(history), a);
                   entry == StreamConfig(Attendee(a, last.externalUserId), IntroducedStream(history, a),
                                         last.groupId, last.maxBitrateKbps)
      ensures KeyedById(attendeeIdToInternalConfigurations)
      ensures attendeeIdToInternalConfigurations.Keys == ListedIds(history)
      ensures hasReceivedFirstIndex <==> IndexSeen(history)
      ensures KeepsViewThroughout(history) ==> View(events) == attendeeIdToInternalConfigurations.Keys
      ensures ReceivesWithin(sent, Advertised(cfg, history))
      ensures forall mid :: mid in remoteVideoSources <==> FirstRequest(cfg, history, mid).Some?
      ensures forall mid | mid in remoteVideoSources ::
                remoteVideoSources[mid].streamId
                == RequestedStream(cfg, history, FirstRequest(cfg, history, mid).value, mid)
    {
      WireLanguage(cfg, history);
      MuteAgreement(cfg, history);
      if state == Connected && SubscribedSinceJoin(sent) {
        MuteAgreesOnceSubscribed(cfg, history);
      }
      SessionFollowsInputs(cfg, history);
      StartedIff(cfg, history);
      DirectoryKeyed(cfg, history);
      DirectoryFollowsInputs(cfg, history);
      ViewFollowsInputsIff(cfg, history);
      NoInventedStream(cfg, history);
      AnswersFollowInputs(cfg, history);
      forall mid
        ensures LocalAs(cfg, Snapshot().client, history, mid)
        ensures mid in localVideoSources ==>
                  var ids := IdsAllocated(cfg, history, MediaSection(Video, mid, SendRecv));
                  localVideoSources[mid].streamId == ids.streamId && localVideoSources[mid].groupId == ids.groupId
        ensures mid in localAudioSources ==>
                  var ids := IdsAllocated(cfg, history, MediaSection(Audio, mid, SendRecv));
                  localAudioSources[mid].streamId == ids.streamId && localAudioSources[mid].groupId == ids.groupId
      {
        LocalIds(mid);
      }
      forall a | a in attendeeIdToInternalConfigurations
        ensures a in ListedIds(history)
        ensures var entry, last := attendeeIdToInternalConfigurations[a], LastFor(LastSources(history), a);
                entry == StreamConfig(Attendee(a, last.externalUserId), IntroducedStream(history, a),
                                      last.groupId, last.maxBitrateKbps)
      {
        DirectoryEntryFollowsInputs(cfg, history, a);
      }
      forall mid
        ensures mid in remoteVideoSources <==> FirstRequest(cfg, history, mid).Some?
        ensures mid in remoteVideoSources ==>
                  remoteVideoSources[mid].streamId
                  == RequestedStream(cfg, history, FirstRequest(cfg, history, mid).value, mid)
      {
        SubscribedStreamOrigin(cfg, history, mid);
      }
    }

    lemma LocalIds(mid: string)
      requires Valid()
      ensures LocalAs(cfg, Snapshot().client, history, mid)
      ensures mid in localVideoSources ==>
                var ids := IdsAllocated(cfg, history, MediaSection(Video, mid, SendRecv));
                localVideoSources[mid].streamId == ids.streamId && localVideoSources[mid].groupId == ids.groupId
      ensures mid in localAudioSources ==>
                var ids := IdsAllocated(cfg, history, MediaSection(Audio, mid, SendRecv));
                localAudioSources[mid].streamId == ids.streamId && localAudioSources[mid].groupId == ids.groupId
    {
      LocalFollowsInputs(cfg, history, mid);
      if mid in localVideoSources {
        IdsFollowInputs(cfg, history, MediaSection(Video, mid, SendRecv));
      }
      if mid in localAudioSources {
        IdsFollowInputs(cfg, history, MediaSection(Audio, mid, SendRecv));
      }
    }

    /** What its events say the moment an input adds them. */
    lemma GuaranteesNext(x: Input, e: Event)
      requires Valid() && e in NewEvents(cfg, history, x) && VideoEvent(e)
      ensures EffectiveIndex(history, x)
      ensures e.Started? ==>
                && LatestAck(history).Some?
                && e.credentials == LatestAck(history).value.credentials
                && x.now <= LatestAck(history).value.Deadline()
    {
      SessionGating(cfg, history, x, e);
    }
  }
}
