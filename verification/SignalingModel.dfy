/**
 * `DefaultSignalingClient` as a machine: its fields, the calls and frames it reacts to, the frames it puts on the wire
 * and the events it sends its observers. Clock readings come with the inputs that take them.
 */
module SignalingModel {
  import opened Common
  import opened Sdp
  import opened StringOrder

  // ----- Values -----

  datatype SignalingState = Idle | Connecting | Connected | Disconnecting | Disconnected

  /** `InternalStreamConfiguration`. */
  datatype StreamConfig = StreamConfig(attendee: Attendee, streamId: u32, groupId: u32, maxBitrateKbps: u32)

  const NO_CONFIG: StreamConfig := StreamConfig(Attendee("", ""), 0, 0, 0)

  /** `RemoteVideoSourceInfo`. */
  datatype SourceInfo = SourceInfo(attendee: Attendee, maxBitrateKbps: u32, streamId: u32)

  datatype TurnCredentials = TurnCredentials(username: string, password: string, ttl: u32, uris: seq<string>)

  /** The parts of `SignalingClientConfiguration` the client reads. */
  datatype Config = Config(
    attendeeId: string, externalUserId: string, audioHostUrl: string, enableAttendeeUpdate: bool, muteOnJoin: bool)

  datatype DataMessageToSend = DataMessageToSend(topic: string, data: string, lifetimeMs: int)

  datatype DataMessageReceived = DataMessageReceived(topic: string, data: string, timestampMs: int, attendee: Attendee)

  datatype SendErrorReason = Throttled | InvalidTopic | InvalidDataMessageSize | InvalidLifeTimeMs

  datatype DataMessageSendError = DataMessageSendError(topic: string, data: string, reason: SendErrorReason)

  // ----- Frames received -----

  datatype TurnPart = TurnPart(
    username: Option<string>, password: Option<string>, ttl: Option<u32>, uris: seq<string>)

  datatype JoinAck = JoinAck(turnCredentials: Option<TurnPart>) {
    predicate Complete() {
      && turnCredentials.Some?
      && var t := turnCredentials.value;
         t.username.Some? && t.password.Some? && t.ttl.Some? && t.uris != []
    }

    function Credentials(): TurnCredentials
      requires Complete()
    {
      var t := turnCredentials.value;
      TurnCredentials(t.username.value, t.password.value, t.ttl.value, t.uris)
    }
  }

  /** A source in an index frame; absent fields read as zero or empty. */
  datatype IndexSource = IndexSource(
    streamId: u32, groupId: u32, maxBitrateKbps: u32, attendeeId: string, externalUserId: string)

  datatype Index = Index(atCapacity: Option<bool>, sources: seq<IndexSource>)

  datatype Allocation = Allocation(streamId: u32, groupId: u32)

  datatype SubscribeAck = SubscribeAck(sdpAnswer: Option<string>, allocations: seq<Allocation>)

  /** A message in a data message frame; an absent ingest time reads as zero. */
  datatype DataPayload = DataPayload(
    topic: string, data: string, ingestTimeNs: int, senderAttendeeId: string, senderExternalUserId: string)

  // ----- Frames sent -----

  datatype SendDescriptor = SendDescriptor(streamId: u32, groupId: u32, maxBitrateKbps: u32)

  datatype Service = Rx | Duplex

  datatype Subscription = Subscription(
    duplex: Service, sendStreams: seq<SendDescriptor>, receiveStreamIds: seq<u32>, sdpOffer: string,
    audioHost: Option<string>, audioMuted: Option<bool>)

  datatype WireFrame =
    | Join(protocolVersion: nat, maxNumOfVideos: nat, flags: nat)
    | Subscribe(sub: Subscription)
    | DataMessage(message: DataMessageToSend)
    | AudioControl(muted: bool)
    | Leave

  // ----- Observer events -----

  datatype StopReason = ClosedOk | ClientError(description: string)

  datatype Event =
    | Started(credentials: TurnCredentials, sources: seq<SourceInfo>)
    | Available(sources: seq<SourceInfo>)
    | Unavailable(sources: seq<SourceInfo>)
    | Stopped(reason: StopReason)
    | RemoteDescription(sdpAnswer: string)
    | DataReceived(messages: seq<DataMessageReceived>)
    | DataFailed(failures: seq<DataMessageSendError>)

  // ----- Inputs -----

  datatype Input =
    | SetLocalDescription(sdp: string)
    | UpdateLocalVideo(mid: string, maxBitrateKbps: u32)
    | RemoveLocalVideo(mid: string)
    | UpdateLocalAudio(mid: string, mute: bool)
    | RemoveLocalAudio(mid: string)
    | SendDataMessage(toSend: DataMessageToSend)
    | Start
    | Stop
    | UpdateRemoteVideoSubscriptions(added: map<string, SourceInfo>, removed: seq<string>)
    | SendUpdates
    | SignalingConnected
    | SignalingError(description: string)
    | SignalingClosed
    | JoinAckFrame(joinAck: JoinAck, now: int)
    | LeaveAckFrame
    | IndexFrame(index: Index, now: int)
    | SubscribeAckFrame(subAck: SubscribeAck)
    | DataMessageFrame(payloads: seq<DataPayload>)
    /** Bitrates, audio frames (handled by the audio frame adapter) and unexpected types. */
    | OtherFrame

  // ----- State -----

  datatype Client = Client(
    sdp: string,
    state: SignalingState,
    localVideo: map<string, StreamConfig>,
    localAudio: map<string, StreamConfig>,
    remoteVideo: map<string, StreamConfig>,
    directory: map<string, StreamConfig>,
    isMuted: bool,
    hasReceivedFirstIndex: bool,
    turnExpireTime: int,
    isJoined: bool,
    turnCredentials: TurnCredentials)

  /** A client with everything it has put on the wire and told its observers. */
  datatype Log = Log(client: Client, sent: seq<WireFrame>, events: seq<Event>) {
    function Send(f: WireFrame): Log { this.(sent := sent + [f]) }

    function Notify(e: Event): Log { this.(events := events + [e]) }
  }

  function NewClient(cfg: Config): Client {
    Client("", Idle, map[], map[], map[], map[], cfg.muteOnJoin, false, 0, false, TurnCredentials("", "", 0, []))
  }

  /** Clock ticks (nanoseconds) in a second. */
  const TICKS_PER_SECOND: int := 1_000_000_000

  // ----- Mute and data messages -----

  function SetMute(log: Log, mute: bool): Log {
    if log.client.isMuted == mute then log
    else
      var changed := log.(client := log.client.(isMuted := mute));
      if log.client.state == Connected then changed.Send(AudioControl(mute)) else changed
  }

  const MAX_DATA_SIZE: nat := 2048

  predicate TopicChar(c: char) {
    'a' <= c <= 'z' || 'A' <= c <= 'Z' || '0' <= c <= '9' || c == '_' || c == '-'
  }

  /** The expression `^[a-zA-Z0-9_-]{1,36}$`. */
  predicate TopicMatches(topic: string) {
    1 <= |topic| <= 36 && forall i | 0 <= i < |topic| :: TopicChar(topic[i])
  }

  function ValidateDataMessage(m: DataMessageToSend): Option<SendErrorReason> {
    if |m.data| > MAX_DATA_SIZE then Some(InvalidDataMessageSize)
    else if !TopicMatches(m.topic) then Some(InvalidTopic)
    else if m.lifetimeMs < 0 then Some(InvalidLifeTimeMs)
    else None
  }

  /** Nanoseconds to milliseconds; division in C++ truncates towards zero. */
  function ToMilliseconds(ns: int): int {
    if ns >= 0 then ns / 1_000_000 else -(-ns / 1_000_000)
  }

  function ToReceived(p: DataPayload): DataMessageReceived {
    DataMessageReceived(p.topic, p.data, ToMilliseconds(p.ingestTimeNs),
                        Attendee(p.senderAttendeeId, p.senderExternalUserId))
  }

  function ToThrottled(p: DataPayload): DataMessageSendError {
    DataMessageSendError(p.topic, p.data, Throttled)
  }

  function ReceivedMessages(payloads: seq<DataPayload>): seq<DataMessageReceived> {
    if payloads == [] then []
    else
      var message := Last(payloads);
      ReceivedMessages(Init(payloads)) + if message.ingestTimeNs == 0 then [] else [ToReceived(message)]
  }

  function ThrottledMessages(payloads: seq<DataPayload>): seq<DataMessageSendError> {
    if payloads == [] then []
    else
      var message := Last(payloads);
      ThrottledMessages(Init(payloads)) + if message.ingestTimeNs == 0 then [ToThrottled(message)] else []
  }

  function DataEvents(payloads: seq<DataPayload>): seq<Event> {
    var received, throttled := ReceivedMessages(payloads), ThrottledMessages(payloads);
    (if received == [] then [] else [DataReceived(received)])
        + (if throttled == [] then [] else [DataFailed(throttled)])
  }

  // ----- Index frames -----

  function AttendeeIds(sources: seq<IndexSource>): set<string> {
    set i | 0 <= i < |sources| :: sources[i].attendeeId
  }

  /** The last source for `a`. */
  function LastFor(sources: seq<IndexSource>, a: string): IndexSource
    requires a in AttendeeIds(sources)
  {
    if Last(sources).attendeeId == a then Last(sources)
    else
      assert a in AttendeeIds(Init(sources)) by {
        var i :| 0 <= i < |sources| && sources[i].attendeeId == a;
        assert Init(sources)[i].attendeeId == a;
      }
      LastFor(Init(sources), a)
  }

  /** The first source for `a`. */
  function FirstFor(sources: seq<IndexSource>, a: string): IndexSource
    requires a in AttendeeIds(sources)
  {
    if a in AttendeeIds(Init(sources)) then FirstFor(Init(sources), a) else Last(sources)
  }

  /** What the directory holds for `a` after the sources were taken in one by one. */
  function EntryFor(directory: map<string, StreamConfig>, sources: seq<IndexSource>, a: string): StreamConfig
    requires a in directory || a in AttendeeIds(sources)
  {
    if a !in AttendeeIds(sources) then directory[a]
    else
      var last := LastFor(sources, a);
      StreamConfig(Attendee(a, last.externalUserId),
                   if a in directory then directory[a].streamId else FirstFor(sources, a).streamId,
                   last.groupId, last.maxBitrateKbps)
  }

  function Absorbed(directory: map<string, StreamConfig>, sources: seq<IndexSource>): map<string, StreamConfig> {
    map a | a in directory.Keys + AttendeeIds(sources) :: EntryFor(directory, sources, a)
  }

  function Remaining(directory: map<string, StreamConfig>, sources: seq<IndexSource>): map<string, StreamConfig> {
    map a | a in directory && a in AttendeeIds(sources) :: directory[a]
  }

  function InfoOf(s: IndexSource): SourceInfo {
    SourceInfo(Attendee(s.attendeeId, s.externalUserId), s.maxBitrateKbps, s.streamId)
  }

  /** The sources that introduce an attendee, in frame order. */
  function NewSources(directory: map<string, StreamConfig>, sources: seq<IndexSource>): seq<SourceInfo> {
    if sources == [] then []
    else
      var s := Last(sources);
      NewSources(directory, Init(sources))
      + if s.attendeeId in directory || s.attendeeId in AttendeeIds(Init(sources)) then [] else [InfoOf(s)]
  }

  /** What observers are told of an attendee who is gone; the stream id is left at zero. */
  function DepartedInfo(c: StreamConfig): SourceInfo {
    SourceInfo(c.attendee, c.maxBitrateKbps, 0)
  }

  /** Those of the keys the frame does not mention. */
  function DepartedAmong(
    directory: map<string, StreamConfig>, sources: seq<IndexSource>, keys: seq<string>): seq<SourceInfo>
    requires forall k | k in keys :: k in directory
  {
    if keys == [] then []
    else
      (if keys[0] in AttendeeIds(sources) then [] else [DepartedInfo(directory[keys[0]])])
      + DepartedAmong(directory, sources, keys[1..])
  }

  /** The entries the frame does not mention, in the order of the map. */
  function Departed(directory: map<string, StreamConfig>, sources: seq<IndexSource>): seq<SourceInfo> {
    AscendingVisits(directory.Keys);
    DepartedAmong(directory, sources, Ascending(directory.Keys))
  }

  predicate Accepts(c: Client, index: Index) {
    c.state == Connected && c.isJoined && index.atCapacity != Some(true)
  }

  predicate Expired(c: Client, now: int) {
    now - c.turnExpireTime > 0
  }

  /** The directory after an accepted index frame: the departed are erased, then the sources taken in. */
  function Refreshed(directory: map<string, StreamConfig>, sources: seq<IndexSource>): map<string, StreamConfig> {
    Absorbed(Remaining(directory, sources), sources)
  }

  function IndexedClient(c: Client, index: Index): Client {
    if Accepts(c, index) then c.(directory := Refreshed(c.directory, index.sources), hasReceivedFirstIndex := true)
        else c
  }

  function IndexEvents(c: Client, index: Index, now: int): seq<Event> {
    var introduced, gone := NewSources(c.directory, index.sources), Departed(c.directory, index.sources);
    if !Accepts(c, index) then []
    else if !c.hasReceivedFirstIndex then
      if Expired(c, now) then [] else [Started(c.turnCredentials, introduced)]
    else
      (if introduced == [] then [] else [Available(introduced)]) + (if gone == [] then [] else [Unavailable(gone)])
  }

  function HandleIndex(log: Log, index: Index, now: int): Log {
    log.(client := IndexedClient(log.client, index), events := log.events + IndexEvents(log.client, index, now))
  }

  // ----- Subscriptions -----

  /** The entry of `mid` once the added subscriptions are applied. */
  function SubscriptionFor(c: Client, added: map<string, SourceInfo>, mid: string): StreamConfig
    requires mid in c.remoteVideo || (mid in added && added[mid].attendee.attendeeId in c.directory)
  {
    if mid in added && added[mid].attendee.attendeeId in c.directory then
      var source := c.directory[added[mid].attendee.attendeeId];
      if mid in c.remoteVideo
      then c.remoteVideo[mid].(groupId := source.groupId, maxBitrateKbps := added[mid].maxBitrateKbps)
      else source
    else c.remoteVideo[mid]
  }

  function WithAdded(c: Client, added: map<string, SourceInfo>): map<string, StreamConfig> {
    map mid | mid in c.remoteVideo.Keys + added.Keys
           && (mid in c.remoteVideo || added[mid].attendee.attendeeId in c.directory) :: SubscriptionFor(c, added, mid)
  }

  predicate IsLocal(d: MediaDirection) { d == Inactive || d == SendOnly || d == SendRecv }

  predicate IsSending(d: MediaDirection) { d == SendOnly || d == SendRecv }

  /** Some video section sends. */
  predicate SendsVideo(sections: seq<MediaSection>) {
    exists i | 0 <= i < |sections| :: sections[i].kind == Video && IsSending(sections[i].direction)
  }

  function DescriptorOf(c: StreamConfig): SendDescriptor {
    SendDescriptor(c.streamId, c.groupId, c.maxBitrateKbps)
  }

  /** One descriptor for every section whose mid is local and of the section's own type. */
  function Descriptors(c: Client, sections: seq<MediaSection>): seq<SendDescriptor> {
    if sections == [] then []
    else
      var s := Last(sections);
      var local := if s.kind == Audio then c.localAudio else c.localVideo;
      Descriptors(c, Init(sections)) + if s.mid in local then [DescriptorOf(local[s.mid])] else []
  }

  /** Zero for local audio and for inactive remote video, the subscribed stream for other remote video. */
  function ReceiveIds(c: Client, sections: seq<MediaSection>): seq<u32> {
    if sections == [] then []
    else
      var s := Last(sections);
      ReceiveIds(c, Init(sections))
      + if s.kind == Audio then (if s.mid in c.localAudio then [0] else [])
        else if s.mid in c.localVideo || s.mid !in c.remoteVideo then []
        else [if s.direction == Inactive then 0 else c.remoteVideo[s.mid].streamId]
  }

  function BuildSubscription(cfg: Config, c: Client): Subscription {
    var sections := Sections(c.sdp);
    var duplex := if SendsVideo(sections) then Duplex else Rx;
    Subscription(
      duplex,
      if duplex == Duplex then Descriptors(c, sections) else [],
      ReceiveIds(c, sections),
      c.sdp,
      if cfg.audioHostUrl == "" then None else Some(cfg.audioHostUrl),
      if c.isMuted then Some(true) else None)
  }

  predicate LocalMid(c: Client, mid: string) {
    mid in c.localAudio || mid in c.localVideo
  }

  /** The local source of `mid`, an audio source before a video one, takes the ids of an allocation. */
  function GiveTo(c: Client, mid: string, a: Allocation): Client
    requires LocalMid(c, mid)
  {
    if mid in c.localAudio
    then c.(localAudio := c.localAudio[mid := c.localAudio[mid].(groupId := a.groupId, streamId := a.streamId)])
    else c.(localVideo := c.localVideo[mid := c.localVideo[mid].(groupId := a.groupId, streamId := a.streamId)])
  }

  /** The local maps after the sections of an answer have been given allocations from number `next` on. */
  function Allocate(c: Client, sections: seq<MediaSection>, allocations: seq<Allocation>, next: nat): Client
    decreases |sections|
  {
    if sections == [] || next >= |allocations| || next >= |c.localAudio| + |c.localVideo| then c
    else if LocalMid(c, sections[0].mid) then
      Allocate(GiveTo(c, sections[0].mid, allocations[next]), sections[1..], allocations, next + 1)
    else Allocate(c, sections[1..], allocations, next)
  }

  function HandleSubscribeAck(log: Log, ack: SubscribeAck): Log {
    if ack.sdpAnswer.None? then log
    else
      log.(client := Allocate(log.client, Sections(ack.sdpAnswer.value), ack.allocations, 0))
         .Notify(RemoteDescription(ack.sdpAnswer.value))
  }

  // ----- The machine -----

  const PROTOCOL_VERSION: nat := 2
  const MAX_NUM_OF_VIDEOS: nat := 25
  const EXCLUDE_SELF_CONTENT_IN_INDEX: nat := 32
  const HAS_STREAM_UPDATE: nat := 2

  function JoinFrame(cfg: Config): WireFrame {
    Join(PROTOCOL_VERSION, MAX_NUM_OF_VIDEOS,
         EXCLUDE_SELF_CONTENT_IN_INDEX + if cfg.enableAttendeeUpdate then HAS_STREAM_UPDATE else 0)
  }

  function Step(cfg: Config, log: Log, x: Input): Log {
    var c := log.client;
    match x
    case SetLocalDescription(sdp) => log.(client := c.(sdp := sdp))
    case UpdateLocalVideo(mid, rate) =>
      var config := if mid in c.localVideo then c.localVideo[mid]
                    else NO_CONFIG.(attendee := Attendee(cfg.attendeeId, cfg.externalUserId));
      log.(client := c.(localVideo := c.localVideo[mid := config.(maxBitrateKbps := rate)]))
    case RemoveLocalVideo(mid) => log.(client := c.(localVideo := c.localVideo - {mid}))
    case UpdateLocalAudio(mid, mute) =>
      var audio := if mid in c.localAudio then c.localAudio else c.localAudio[mid := NO_CONFIG];
      SetMute(log.(client := c.(localAudio := audio)), mute)
    case RemoveLocalAudio(mid) => log.(client := c.(localAudio := c.localAudio - {mid}))
    case SendDataMessage(m) =>
      if c.state != Connected then log
      else
        (match ValidateDataMessage(m)
         case Some(reason) => log.Notify(DataFailed([DataMessageSendError(m.topic, m.data, reason)]))
         case None => log.Send(DataMessage(m)))
    case Start => log.(client := c.(state := Connecting))
    case Stop => if c.state != Connected then log else log.Send(Leave).(client := c.(state := Disconnecting))
    case UpdateRemoteVideoSubscriptions(added, removed) =>
      log.(client := c.(remoteVideo := WithAdded(c, added) - (set i | 0 <= i < |removed| :: removed[i])))
    case SendUpdates => if c.state != Connected then log else log.Send(Subscribe(BuildSubscription(cfg, c)))
    case SignalingConnected => log.Send(JoinFrame(cfg)).(client := c.(state := Connected))
    case SignalingError(description) =>
      log.Notify(Stopped(ClientError(description))).(client := c.(state := Disconnected, isJoined := false))
    case SignalingClosed =>
      log.Notify(Stopped(ClosedOk))
         .(client := c.(state := Disconnected, isJoined := false, hasReceivedFirstIndex := false))
    case JoinAckFrame(ack, now) =>
      if !ack.Complete() then log
      else log.(client := c.(
        turnExpireTime := now + ack.Credentials().ttl * TICKS_PER_SECOND,
        turnCredentials := ack.Credentials(),
        isJoined := true))
    case LeaveAckFrame =>
      log.(client := c.(
        state := Disconnected, localVideo := map[], localAudio := map[], remoteVideo := map[], directory := map[]))
    case IndexFrame(index, now) => HandleIndex(log, index, now)
    case SubscribeAckFrame(ack) => HandleSubscribeAck(log, ack)
    case DataMessageFrame(payloads) => log.(events := log.events + DataEvents(payloads))
    case OtherFrame => log
  }

  function Run(cfg: Config, inputs: seq<Input>): Log {
    if inputs == [] then Log(NewClient(cfg), [], []) else Step(cfg, Run(cfg, Init(inputs)), Last(inputs))
  }

  lemma {:induction false} RunSnoc(cfg: Config, inputs: seq<Input>, x: Input)
    ensures Run(cfg, inputs + [x]) == Step(cfg, Run(cfg, inputs), x)
  {
    assert Init(inputs + [x]) == inputs;
  }
}
