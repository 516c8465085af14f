/** The client's own side, read off the inputs alone: offer, state, mute flag and local sources. */
module SignalingLocal {
  import opened Common
  import opened Sdp
  import opened SignalingModel
  import opened SignalingWire
  import opened SignalingStreams
  import opened SignalingAllocations

  // ----- Offer, state and mute flag -----

  /** The description set last. */
  function OfferSet(inputs: seq<Input>): string {
    if inputs == [] then ""
    else match Last(inputs)
      case SetLocalDescription(sdp) => sdp
      case _ => OfferSet(Init(inputs))
  }

  function StateReached(inputs: seq<Input>): SignalingState {
    if inputs == [] then Idle
    else
      var before := StateReached(Init(inputs));
      match Last(inputs)
      case Start => Connecting
      case SignalingConnected => Connected
      case Stop => if before == Connected then Disconnecting else before
      case SignalingError(_) => Disconnected
      case SignalingClosed => Disconnected
      case LeaveAckFrame => Disconnected
      case _ => before
  }

  /** The mute flag asked for last, the configured one to begin with. */
  function MuteAsked(cfg: Config, inputs: seq<Input>): bool {
    if inputs == [] then cfg.muteOnJoin
    else match Last(inputs)
      case UpdateLocalAudio(_, mute) => mute
      case _ => MuteAsked(cfg, Init(inputs))
  }

  // ----- Local sources -----

  /** The bitrate asked for last for a local video source, if it was not removed since and the meeting not left. */
  function VideoRate(inputs: seq<Input>, mid: string): Option<u32> {
    if inputs == [] then None
    else match Last(inputs)
      case UpdateLocalVideo(m, rate) => if m == mid then Some(rate) else VideoRate(Init(inputs), mid)
      case RemoveLocalVideo(m) => if m == mid then None else VideoRate(Init(inputs), mid)
      case LeaveAckFrame => None
      case _ => VideoRate(Init(inputs), mid)
  }

  /** A local audio source was added and neither removed since nor the meeting left. */
  predicate AudioAdded(inputs: seq<Input>, mid: string) {
    inputs != [] && match Last(inputs)
      case UpdateLocalAudio(m, _) => m == mid || AudioAdded(Init(inputs), mid)
      case RemoveLocalAudio(m) => m != mid && AudioAdded(Init(inputs), mid)
      case LeaveAckFrame => false
      case _ => AudioAdded(Init(inputs), mid)
  }

  predicate UpToIds(a: StreamConfig, b: StreamConfig) {
    a.maxBitrateKbps == b.maxBitrateKbps && a.attendee == b.attendee
  }

  /** Acknowledgements leave the local side alone, up to allocated ids. */
  lemma {:induction false} LocalAfterAck(log: Log, ack: SubscribeAck, mid: string)
    ensures var c, after := log.client, HandleSubscribeAck(log, ack).client;
            && after.sdp == c.sdp && after.state == c.state && after.isMuted == c.isMuted
            && after.localVideo.Keys == c.localVideo.Keys && after.localAudio.Keys == c.localAudio.Keys
            && (mid in c.localVideo ==> UpToIds(after.localVideo[mid], c.localVideo[mid]))
            && (mid in c.localAudio ==> UpToIds(after.localAudio[mid], c.localAudio[mid]))
  {
    if ack.sdpAnswer.Some? {
      var c, sections := log.client, Sections(ack.sdpAnswer.value);
      AllocateOnlyLocal(c, sections, ack.allocations, 0);
      if mid in c.localVideo {
        AllocateShares(c, sections, ack.allocations, 0, MediaSection(Video, mid, SendRecv));
      }
      if mid in c.localAudio {
        AllocateShares(c, sections, ack.allocations, 0, MediaSection(Audio, mid, SendRecv));
      }
    }
  }

  ghost predicate LocalAs(cfg: Config, c: Client, inputs: seq<Input>, mid: string) {
    && OfferStateMuteAs(cfg, c, inputs)
    && VideoAs(cfg, c.localVideo, inputs, mid) && AudioAs(c.localAudio, inputs, mid)
  }

  ghost predicate VideoAs(cfg: Config, sources: map<string, StreamConfig>, inputs: seq<Input>, mid: string) {
    && (mid in sources <==> VideoRate(inputs, mid).Some?)
    && (mid in sources ==>
          && sources[mid].maxBitrateKbps == VideoRate(inputs, mid).value
          && sources[mid].attendee == Attendee(cfg.attendeeId, cfg.externalUserId))
  }

  ghost predicate AudioAs(sources: map<string, StreamConfig>, inputs: seq<Input>, mid: string) {
    && (mid in sources <==> AudioAdded(inputs, mid))
    && (mid in sources ==> sources[mid].maxBitrateKbps == 0 && sources[mid].attendee == Attendee("", ""))
  }

  /**
   * In every run the client's offer, state and mute flag are those asked for last, and its local sources are the ones
   * added and not removed since, each with the bitrate asked for last.
   */
  lemma {:induction false} LocalFollowsInputs(cfg: Config, inputs: seq<Input>, mid: string)
    ensures LocalAs(cfg, Run(cfg, inputs).client, inputs, mid)
  {
    if inputs != [] {
      var init, x := Init(inputs), Last(inputs);
      LocalFollowsInputs(cfg, init, mid);
      assert init + [x] == inputs;
      RunSnoc(cfg, init, x);
      OfferStep(cfg, Run(cfg, init), init, x);
      StateStep(cfg, Run(cfg, init), init, x);
      MuteStep(cfg, Run(cfg, init), init, x);
      SourcesStep(cfg, init, x, mid);
    }
  }

  predicate OfferStateMuteAs(cfg: Config, c: Client, inputs: seq<Input>) {
    c.sdp == OfferSet(inputs) && c.state == StateReached(inputs) && c.isMuted == MuteAsked(cfg, inputs)
  }

  lemma {:induction false} OfferStep(cfg: Config, log: Log, inputs: seq<Input>, x: Input)
    requires log.client.sdp == OfferSet(inputs)
    ensures Step(cfg, log, x).client.sdp == OfferSet(inputs + [x])
  {
    assert Init(inputs + [x]) == inputs;
    match x
    case SubscribeAckFrame(ack) => LocalAfterAck(log, ack, "");
    case _ =>
  }

  lemma {:induction false} StateStep(cfg: Config, log: Log, inputs: seq<Input>, x: Input)
    requires log.client.state == StateReached(inputs)
    ensures Step(cfg, log, x).client.state == StateReached(inputs + [x])
  {
    assert Init(inputs + [x]) == inputs;
    match x
    case SubscribeAckFrame(ack) => LocalAfterAck(log, ack, "");
    case _ =>
  }

  lemma {:induction false} MuteStep(cfg: Config, log: Log, inputs: seq<Input>, x: Input)
    requires log.client.isMuted == MuteAsked(cfg, inputs)
    ensures Step(cfg, log, x).client.isMuted == MuteAsked(cfg, inputs + [x])
  {
    assert Init(inputs + [x]) == inputs;
    match x
    case SubscribeAckFrame(ack) => LocalAfterAck(log, ack, "");
    case _ =>
  }

  /** The local video sources after an input that is no acknowledgement. */
  function VideoAfter(cfg: Config, sources: map<string, StreamConfig>, x: Input): map<string, StreamConfig> {
    match x
    case UpdateLocalVideo(m, rate) =>
      var config := if m in sources then sources[m]
                    else StreamConfig(Attendee(cfg.attendeeId, cfg.externalUserId), 0, 0, 0);
      sources[m := config.(maxBitrateKbps := rate)]
    case RemoveLocalVideo(m) => sources - {m}
    case LeaveAckFrame => map[]
    case _ => sources
  }

  function AudioAfter(sources: map<string, StreamConfig>, x: Input): map<string, StreamConfig> {
    match x
    case UpdateLocalAudio(m, _) =>
      if m in sources then sources else sources[m := StreamConfig(Attendee("", ""), 0, 0, 0)]
    case RemoveLocalAudio(m) => sources - {m}
    case LeaveAckFrame => map[]
    case _ => sources
  }

  lemma {:induction false} VideoStep(cfg: Config, log: Log, x: Input)
    requires !x.SubscribeAckFrame?
    ensures Step(cfg, log, x).client.localVideo == VideoAfter(cfg, log.client.localVideo, x)
  {
    match x
    case UpdateLocalVideo(_, _) =>
    case RemoveLocalVideo(_) =>
    case UpdateLocalAudio(_, _) =>
    case RemoveLocalAudio(_) =>
    case LeaveAckFrame =>
    case _ =>
  }

  lemma MuteOnly(log: Log, mute: bool)
    ensures SignalingModel.SetMute(log, mute).client == log.client.(isMuted := mute)
  {
  }

  lemma {:induction false} AudioStep(cfg: Config, log: Log, x: Input)
    requires !x.SubscribeAckFrame?
    ensures Step(cfg, log, x).client.localAudio == AudioAfter(log.client.localAudio, x)
  {
    var c := log.client;
    match x
    case UpdateLocalAudio(mid, mute) =>
      var audio := if mid in c.localAudio then c.localAudio else c.localAudio[mid := NO_CONFIG];
      MuteOnly(log.(client := c.(localAudio := audio)), mute);
    case RemoveLocalAudio(_) =>
    case LeaveAckFrame =>
    case _ =>
  }

  lemma {:induction false} VideoAsAfter(
    cfg: Config, sources: map<string, StreamConfig>, inputs: seq<Input>, x: Input, mid: string)
    requires !x.SubscribeAckFrame? && VideoAs(cfg, sources, inputs, mid)
    ensures VideoAs(cfg, VideoAfter(cfg, sources, x), inputs + [x], mid)
  {
    assert Init(inputs + [x]) == inputs;
  }

  lemma {:induction false} AudioAsAfter(sources: map<string, StreamConfig>, inputs: seq<Input>, x: Input, mid: string)
    requires !x.SubscribeAckFrame? && AudioAs(sources, inputs, mid)
    ensures AudioAs(AudioAfter(sources, x), inputs + [x], mid)
  {
    assert Init(inputs + [x]) == inputs;
  }

  lemma {:induction false} SourcesStep(cfg: Config, inputs: seq<Input>, x: Input, mid: string)
    requires VideoAs(cfg, Run(cfg, inputs).client.localVideo, inputs, mid)
    requires AudioAs(Run(cfg, inputs).client.localAudio, inputs, mid)
    ensures VideoAs(cfg, Run(cfg, inputs + [x]).client.localVideo, inputs + [x], mid)
    ensures AudioAs(Run(cfg, inputs + [x]).client.localAudio, inputs + [x], mid)
  {
    var c := Run(cfg, inputs).client;
    RunSnoc(cfg, inputs, x);
    if x.SubscribeAckFrame? {
      assert Init(inputs + [x]) == inputs;
      LocalAfterAck(Run(cfg, inputs), x.subAck, mid);
    } else {
      VideoStep(cfg, Run(cfg, inputs), x);
      AudioStep(cfg, Run(cfg, inputs), x);
      VideoAsAfter(cfg, c.localVideo, inputs, x, mid);
      AudioAsAfter(c.localAudio, inputs, x, mid);
    }
  }

  // ----- Allocated ids -----

  /** The local source of `mid` and type `kind` starts with the last input. */
  predicate StartsSource(inputs: seq<Input>, kind: MediaType, mid: string) {
    inputs != []
    && match Last(inputs)
       case UpdateLocalVideo(m, _) => kind == Video && m == mid && VideoRate(Init(inputs), mid).None?
       case UpdateLocalAudio(m, _) => kind == Audio && m == mid && !AudioAdded(Init(inputs), mid)
       case _ => false
  }

  /** What the last input, if it is an acknowledgement, allocates to the local source of `s`. */
  function Allocated(cfg: Config, inputs: seq<Input>, s: MediaSection): Option<Allocation> {
    if inputs == [] || !Last(inputs).SubscribeAckFrame? then None
    else AllocatedBy(Run(cfg, Init(inputs)).client, Last(inputs).subAck, s)
  }

  /** The ids allocated last to the local source of `s` since it was added, zero if none were. */
  function IdsAllocated(cfg: Config, inputs: seq<Input>, s: MediaSection): Allocation {
    if inputs == [] || StartsSource(inputs, s.kind, s.mid) then Allocation(0, 0)
    else match Allocated(cfg, inputs, s)
      case Some(allocation) => allocation
      case None => IdsAllocated(cfg, Init(inputs), s)
  }

  predicate SameOrNoIds(before: map<string, StreamConfig>, after: map<string, StreamConfig>, mid: string)
    requires mid in after
  {
    if mid in before
    then after[mid].streamId == before[mid].streamId && after[mid].groupId == before[mid].groupId
    else after[mid].streamId == after[mid].groupId == 0
  }

  /** Apart from acknowledgements, an input leaves the ids of a local source alone; a new one has none. */
  lemma VideoIdsKept(cfg: Config, before: map<string, StreamConfig>, x: Input, mid: string)
    requires !x.SubscribeAckFrame? && mid in VideoAfter(cfg, before, x)
    ensures SameOrNoIds(before, VideoAfter(cfg, before, x), mid)
    ensures mid !in before ==> x.UpdateLocalVideo? && x.mid == mid
  {
  }

  lemma AudioIdsKept(before: map<string, StreamConfig>, x: Input, mid: string)
    requires !x.SubscribeAckFrame? && mid in AudioAfter(before, x)
    ensures SameOrNoIds(before, AudioAfter(before, x), mid)
    ensures mid !in before ==> x.UpdateLocalAudio? && x.mid == mid
  {
  }

  /** In every run a local source has the ids allocated to it last. */
  lemma {:induction false} IdsFollowInputs(cfg: Config, inputs: seq<Input>, s: MediaSection)
    requires s.mid in Own(Run(cfg, inputs).client, s)
    ensures var config, ids := Own(Run(cfg, inputs).client, s)[s.mid], IdsAllocated(cfg, inputs, s);
            config.streamId == ids.streamId && config.groupId == ids.groupId
  {
    var init, x := Init(inputs), Last(inputs);
    assert init + [x] == inputs;
    if x.SubscribeAckFrame? {
      IdsAfterAck(cfg, Run(cfg, init), x.subAck, s);
      IdsFollowInputs(cfg, init, s);
    } else {
      if s.kind == Video {
        VideoStep(cfg, Run(cfg, init), x);
        VideoIdsKept(cfg, Run(cfg, init).client.localVideo, x, s.mid);
      } else {
        AudioStep(cfg, Run(cfg, init), x);
        AudioIdsKept(Run(cfg, init).client.localAudio, x, s.mid);
      }
      StartsIsNew(cfg, init, x, s);
      if !StartsSource(inputs, s.kind, s.mid) {
        IdsFollowInputs(cfg, init, s);
      }
    }
  }

  lemma {:induction false} StartsIsNew(cfg: Config, inputs: seq<Input>, x: Input, s: MediaSection)
    ensures StartsSource(inputs + [x], s.kind, s.mid) <==>
            (if s.kind == Video then x.UpdateLocalVideo? else x.UpdateLocalAudio?) && x.mid == s.mid
            && s.mid !in Own(Run(cfg, inputs).client, s)
  {
    assert Init(inputs + [x]) == inputs;
    LocalFollowsInputs(cfg, inputs, s.mid);
  }

  /** The answer's allocations to the local source of `s`. */
  function AllocatedBy(c: Client, ack: SubscribeAck, s: MediaSection): Option<Allocation> {
    match ack
    case SubscribeAck(Some(answer), allocations) => ShareOf(c, Slots(c, Sections(answer)), allocations, 0, s)
    case _ => None
  }

  lemma {:induction false} IdsAfterAck(cfg: Config, log: Log, ack: SubscribeAck, s: MediaSection)
    requires s.mid in Own(Step(cfg, log, SubscribeAckFrame(ack)).client, s)
    ensures s.mid in Own(log.client, s)
    ensures Own(Step(cfg, log, SubscribeAckFrame(ack)).client, s)[s.mid]
         == Given(Own(log.client, s)[s.mid], AllocatedBy(log.client, ack, s))
  {
    if ack.sdpAnswer.Some? {
      var c, sections := log.client, Sections(ack.sdpAnswer.value);
      AllocateOnlyLocal(c, sections, ack.allocations, 0);
      AllocateShares(c, sections, ack.allocations, 0, s);
    }
  }
}
