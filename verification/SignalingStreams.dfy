/** Which receive streams SUBSCRIBE frames carry and where they come from; and how data message frames are split. */
module SignalingStreams {
  import opened Common
  import opened Sdp
  import opened SignalingModel
  import opened SignalingWire
  import opened SignalingIndex

  // ----- No invented receive stream -----

  function SourceStreams(sources: seq<IndexSource>): set<u32> {
    set i | 0 <= i < |sources| :: sources[i].streamId
  }

  /** The stream ids an input newly advertises. */
  function NewlyAdvertised(c: Client, x: Input): set<u32> {
    if x.IndexFrame? && Accepts(c, x.index) then SourceStreams(x.index.sources) else {}
  }

  /** The stream ids of all index frames a run accepted. */
  function Advertised(cfg: Config, inputs: seq<Input>): set<u32> {
    if inputs == [] then {}
    else Advertised(cfg, Init(inputs)) + NewlyAdvertised(Run(cfg, Init(inputs)).client, Last(inputs))
  }

  ghost predicate StreamsWithin(m: map<string, StreamConfig>, ids: set<u32>) {
    forall k | k in m :: m[k].streamId in ids
  }

  lemma {:induction false} FirstForIsASource(sources: seq<IndexSource>, a: string)
    requires a in AttendeeIds(sources)
    ensures FirstFor(sources, a).streamId in SourceStreams(sources)
  {
    if a in AttendeeIds(Init(sources)) {
      FirstForIsASource(Init(sources), a);
      var i :| 0 <= i < |Init(sources)| && Init(sources)[i].streamId == FirstFor(sources, a).streamId;
      assert sources[i].streamId == FirstFor(sources, a).streamId;
    } else {
      assert sources[|sources| - 1].streamId == FirstFor(sources, a).streamId;
    }
  }

  lemma {:induction false} RefreshedWithin(
    directory: map<string, StreamConfig>, sources: seq<IndexSource>, ids: set<u32>)
    requires StreamsWithin(directory, ids)
    ensures StreamsWithin(Refreshed(directory, sources), ids + SourceStreams(sources))
  {
    var kept := Remaining(directory, sources);
    forall a | a in kept.Keys + AttendeeIds(sources)
        ensures EntryFor(kept, sources, a).streamId in ids + SourceStreams(sources) {
      if a in AttendeeIds(sources) {
        FirstForIsASource(sources, a);
      }
    }
  }

  lemma WithAddedWithin(c: Client, added: map<string, SourceInfo>, ids: set<u32>)
    requires StreamsWithin(c.directory, ids) && StreamsWithin(c.remoteVideo, ids)
    ensures StreamsWithin(WithAdded(c, added), ids)
  {
  }

  lemma {:induction false} ReceiveIdsWithin(c: Client, sections: seq<MediaSection>, ids: set<u32>)
    requires StreamsWithin(c.remoteVideo, ids)
    ensures forall i | 0 <= i < |ReceiveIds(c, sections)| :: ReceiveIds(c, sections)[i] in ids + {0}
  {
    if sections != [] {
      ReceiveIdsWithin(c, Init(sections), ids);
    }
  }

  ghost predicate ReceivesWithin(frames: seq<WireFrame>, ids: set<u32>) {
    forall i | 0 <= i < |frames| && frames[i].Subscribe? ::
      forall k | 0 <= k < |frames[i].sub.receiveStreamIds| :: frames[i].sub.receiveStreamIds[k] in ids + {0}
  }

  /** Apart from index frames, leaves and subscription changes, inputs keep the directory and the subscriptions. */
  lemma {:induction false} RemoteKept(cfg: Config, log: Log, x: Input)
    requires !x.IndexFrame? && !x.LeaveAckFrame? && !x.UpdateRemoteVideoSubscriptions?
    ensures Step(cfg, log, x).client.directory == log.client.directory
    ensures Step(cfg, log, x).client.remoteVideo == log.client.remoteVideo
  {
    if x.SubscribeAckFrame? && x.subAck.sdpAnswer.Some? {
      AllocateOnlyLocal(log.client, Sections(x.subAck.sdpAnswer.value), x.subAck.allocations, 0);
    }
  }

  /** The last frame of a step that is a SUBSCRIBE is the one built from the state. */
  lemma {:induction false} SubscribeBuilt(cfg: Config, log: Log, x: Input)
    ensures var after := Step(cfg, log, x);
            after.sent != log.sent && Last(after.sent).Subscribe? ==>
                Last(after.sent).sub == BuildSubscription(cfg, log.client)
  {
    SendsAtMostOne(cfg, log, x);
  }

  ghost predicate StreamInvariant(log: Log, ids: set<u32>) {
    && ReceivesWithin(log.sent, ids)
    && StreamsWithin(log.client.directory, ids)
    && StreamsWithin(log.client.remoteVideo, ids)
  }

  lemma {:induction false} UpdateStaysWithin(
    cfg: Config, log: Log, added: map<string, SourceInfo>, removed: seq<string>, ids: set<u32>)
    requires StreamInvariant(log, ids)
    ensures var after := Step(cfg, log, UpdateRemoteVideoSubscriptions(added, removed)).client;
            && StreamsWithin(after.directory, ids)
            && StreamsWithin(after.remoteVideo, ids)
  {
    WithAddedWithin(log.client, added, ids);
  }

  lemma {:induction false} MapsStayWithin(cfg: Config, log: Log, x: Input, ids: set<u32>)
    requires StreamInvariant(log, ids)
    ensures var after := Step(cfg, log, x).client;
            && StreamsWithin(after.directory, ids + NewlyAdvertised(log.client, x))
            && StreamsWithin(after.remoteVideo, ids + NewlyAdvertised(log.client, x))
  {
    match x
    case IndexFrame(index, now) => RefreshedWithin(log.client.directory, index.sources, ids);
    case UpdateRemoteVideoSubscriptions(added, removed) => UpdateStaysWithin(cfg, log, added, removed, ids);
    case LeaveAckFrame =>
    case _ => RemoteKept(cfg, log, x);
  }

  lemma {:induction false} FramesStayWithin(cfg: Config, log: Log, x: Input, ids: set<u32>)
    requires StreamInvariant(log, ids)
    ensures ReceivesWithin(Step(cfg, log, x).sent, ids)
  {
    var after := Step(cfg, log, x).sent;
    SendsAtMostOne(cfg, log, x);
    if after != log.sent && Last(after).Subscribe? {
      SubscribeBuilt(cfg, log, x);
      ReceiveIdsWithin(log.client, Sections(log.client.sdp), ids);
    }
  }

  /**
   * No invented stream. In every run, each receive stream id of each SUBSCRIBE is zero or was advertised in an index
   * frame accepted before; and so is every stream id the directory and the subscriptions hold.
   */
  lemma {:induction false} NoInventedStream(cfg: Config, inputs: seq<Input>)
    ensures StreamInvariant(Run(cfg, inputs), Advertised(cfg, inputs))
  {
    if inputs != [] {
      NoInventedStream(cfg, Init(inputs));
      var log, x, ids := Run(cfg, Init(inputs)), Last(inputs), Advertised(cfg, Init(inputs));
      MapsStayWithin(cfg, log, x, ids);
      FramesStayWithin(cfg, log, x, ids);
    }
  }

  // ----- Where a subscribed stream comes from -----

  /** The input asks for `mid`, for an attendee the directory lists. */
  predicate Requests(c: Client, x: Input, mid: string) {
    x.UpdateRemoteVideoSubscriptions? && mid in x.added && x.added[mid].attendee.attendeeId in c.directory
  }

  /** The position of the first effective request for `mid` since it was last removed or the meeting was left. */
  function FirstRequest(cfg: Config, inputs: seq<Input>, mid: string): (r: Option<nat>)
    ensures r.Some? ==> r.value < |inputs| && Requests(Run(cfg, inputs[..r.value]).client, inputs[r.value], mid)
  {
    if inputs == [] then None
    else
      assert forall n | 0 <= n < |inputs| - 1 :: Init(inputs)[..n] == inputs[..n];
      var earlier, x := FirstRequest(cfg, Init(inputs), mid), Last(inputs);
      if x.LeaveAckFrame? || (x.UpdateRemoteVideoSubscriptions? && mid in x.removed) then None
      else if earlier.None? && Requests(Run(cfg, Init(inputs)).client, x, mid) then Some(|inputs| - 1)
      else earlier
  }

  /** The stream that the attendee asked for at position `n` had in the directory then. */
  function RequestedStream(cfg: Config, inputs: seq<Input>, n: nat, mid: string): u32
    requires n < |inputs| && Requests(Run(cfg, inputs[..n]).client, inputs[n], mid)
  {
    Run(cfg, inputs[..n]).client.directory[inputs[n].added[mid].attendee.attendeeId].streamId
  }

  /** What one change of subscriptions does to `mid`. */
  lemma {:induction false} SubscriptionChange(cfg: Config, log: Log, x: Input, mid: string)
    requires x.UpdateRemoteVideoSubscriptions?
    ensures var c, after := log.client, Step(cfg, log, x).client.remoteVideo;
            && (mid in after <==> mid !in x.removed && (mid in c.remoteVideo || Requests(c, x, mid)))
            && (mid in after && mid in c.remoteVideo ==>
                  && after[mid].streamId == c.remoteVideo[mid].streamId
                  && after[mid].attendee == c.remoteVideo[mid].attendee
                  && after[mid].groupId == (if Requests(c, x, mid) then c.directory[x.added[mid].attendee.attendeeId]
                                            else c.remoteVideo[mid]).groupId
                  && after[mid].maxBitrateKbps == if Requests(c, x, mid) then x.added[mid].maxBitrateKbps
                                                  else c.remoteVideo[mid].maxBitrateKbps)
            && (mid in after && mid !in c.remoteVideo ==>
                  after[mid] == c.directory[x.added[mid].attendee.attendeeId])
  {
    var added := WithAdded(log.client, x.added);
    assert mid in added <==> mid in log.client.remoteVideo || Requests(log.client, x, mid);
  }

  /**
   * A subscribed mid holds the stream of the attendee of its first effective request: in every run a mid is subscribed
   * exactly when such a request came since it was last removed, and later requests for it change nothing of the stream.
   */
  lemma {:induction false} SubscribedStreamOrigin(cfg: Config, inputs: seq<Input>, mid: string)
    ensures var remote, first := Run(cfg, inputs).client.remoteVideo, FirstRequest(cfg, inputs, mid);
            && (mid in remote <==> first.Some?)
            && (mid in remote ==> remote[mid].streamId == RequestedStream(cfg, inputs, first.value, mid))
  {
    if inputs != [] {
      var init, x := Init(inputs), Last(inputs);
      SubscribedStreamOrigin(cfg, init, mid);
      var log, earlier := Run(cfg, init), FirstRequest(cfg, init, mid);
      assert inputs[..|inputs| - 1] == init;
      if earlier.Some? {
        assert inputs[..earlier.value] == init[..earlier.value] && inputs[earlier.value] == init[earlier.value];
      }
      if x.UpdateRemoteVideoSubscriptions? {
        SubscriptionChange(cfg, log, x, mid);
      } else if x.IndexFrame? {
        assert Run(cfg, inputs).client.remoteVideo == log.client.remoteVideo;
      } else if !x.LeaveAckFrame? {
        RemoteKept(cfg, log, x);
      }
    }
  }

  /**
   * Moving a mid to another attendee keeps the old stream: after a request, the mid holds the requested attendee's
   * stream exactly when it was not subscribed or the attendee first asked for had the same stream.
   */
  lemma {:induction false} RequestedStreamIff(cfg: Config, inputs: seq<Input>, x: Input, mid: string)
    requires Requests(Run(cfg, inputs).client, x, mid) && mid !in x.removed
    ensures var c, after := Run(cfg, inputs).client, Run(cfg, inputs + [x]).client;
            var wanted, first := c.directory[x.added[mid].attendee.attendeeId], FirstRequest(cfg, inputs, mid);
            && mid in after.remoteVideo
            && (after.remoteVideo[mid].streamId == wanted.streamId <==>
                  first.None? || RequestedStream(cfg, inputs, first.value, mid) == wanted.streamId)
  {
    SubscribedStreamOrigin(cfg, inputs, mid);
    SubscriptionChange(cfg, Run(cfg, inputs), x, mid);
    RunSnoc(cfg, inputs, x);
  }

  // ----- Data message frames -----

  function ThrottledCount(payloads: seq<DataPayload>): nat {
    if payloads == [] then 0 else ThrottledCount(Init(payloads)) + if Last(payloads).ingestTimeNs == 0 then 1 else 0
  }

  /** Whole milliseconds, cut off towards zero. */
  predicate InMilliseconds(ms: int, ns: int) {
    if ns >= 0 then ms * 1_000_000 <= ns < (ms + 1) * 1_000_000 else (ms - 1) * 1_000_000 < ns <= ms * 1_000_000
  }

  predicate MessageOf(m: DataMessageReceived, p: DataPayload) {
    && m.topic == p.topic && m.data == p.data && InMilliseconds(m.timestampMs, p.ingestTimeNs)
    && m.attendee.attendeeId == p.senderAttendeeId && m.attendee.externalUserId == p.senderExternalUserId
  }

  predicate FailureOf(e: DataMessageSendError, p: DataPayload) {
    e.topic == p.topic && e.data == p.data && e.reason == Throttled
  }

  /**
   * Messages are partitioned without loss: message `i` is in exactly one of the two lists, received or throttled by its
   * ingest time, at the place given by how many of its kind precede it.
   */
  lemma {:induction false} DataPartition(payloads: seq<DataPayload>, i: nat)
    requires i < |payloads|
    ensures |ThrottledMessages(payloads)| == ThrottledCount(payloads)
    ensures |ReceivedMessages(payloads)| + |ThrottledMessages(payloads)| == |payloads|
    ensures var t, received := ThrottledCount(payloads[..i]), ReceivedMessages(payloads);
            if payloads[i].ingestTimeNs == 0
            then t < |ThrottledMessages(payloads)| && FailureOf(ThrottledMessages(payloads)[t], payloads[i])
            else 0 <= i - t < |received| && MessageOf(received[i - t], payloads[i])
  {
    DataCounts(payloads);
    DataCounts(Init(payloads));
    if i == |payloads| - 1 {
      assert payloads[..i] == Init(payloads);
    } else {
      DataPartition(Init(payloads), i);
      assert Init(payloads)[..i] == payloads[..i];
    }
  }

  lemma {:induction false} DataCounts(payloads: seq<DataPayload>)
    ensures |ThrottledMessages(payloads)| == ThrottledCount(payloads)
    ensures |ReceivedMessages(payloads)| + |ThrottledMessages(payloads)| == |payloads|
  {
    if payloads != [] {
      DataCounts(Init(payloads));
    }
  }

  /** Truncating division keeps the order of ingest times, so ordered frames give ordered timestamps. */
  lemma {:induction false} TimestampsOrdered(payloads: seq<DataPayload>)
    requires forall i, j | 0 <= i < j < |payloads| :: payloads[i].ingestTimeNs <= payloads[j].ingestTimeNs
    ensures forall i, j | 0 <= i < j < |ReceivedMessages(payloads)| ::
              ReceivedMessages(payloads)[i].timestampMs <= ReceivedMessages(payloads)[j].timestampMs
    ensures payloads != [] ==> forall i | 0 <= i < |ReceivedMessages(payloads)| ::
              ReceivedMessages(payloads)[i].timestampMs <= ToMilliseconds(Last(payloads).ingestTimeNs)
  {
    if payloads != [] {
      TimestampsOrdered(Init(payloads));
      if |payloads| > 1 {
        MillisecondsMonotone(Last(Init(payloads)).ingestTimeNs, Last(payloads).ingestTimeNs);
      }
    }
  }

  lemma MillisecondsMonotone(x: int, y: int)
    requires x <= y
    ensures ToMilliseconds(x) <= ToMilliseconds(y)
  {
  }
}
