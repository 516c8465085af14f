/** Runs in which a stream ends up at the wrong section. */
module SignalingExamples {
  import opened Common
  import opened SdpText
  import opened Sdp
  import opened SignalingModel
  import opened SignalingSession
  import opened SignalingView
  import opened SignalingStreams
  import opened SignalingAllocations

  /** A video description, its mid line first. */
  function VideoWith(mid: string, direction: MediaDirection): Description {
    Description([], " 9", [], [], true, MediaSection(Video, mid, direction))
  }

  lemma {:induction false} OneVideo(mid: string, direction: MediaDirection)
    requires Free(mid, CRLF)
    ensures Sections(Print([VideoWith(mid, direction)], [])) == [MediaSection(Video, mid, direction)]
  {
    WithoutReturnIsFree(" 9");
    ParsePrintRoundTrip([VideoWith(mid, direction)], []);
  }

  lemma {:induction false} TwoVideos(mid: string, other: string, direction: MediaDirection)
    requires Free(mid, CRLF) && Free(other, CRLF)
    ensures Sections(Print([VideoWith(mid, direction), VideoWith(other, direction)], []))
         == [MediaSection(Video, mid, direction), MediaSection(Video, other, direction)]
  {
    WithoutReturnIsFree(" 9");
    ParsePrintRoundTrip([VideoWith(mid, direction), VideoWith(other, direction)], []);
  }

  // ----- An answer without the first section -----

  /** A connected client that offers two video sections and sends on both. */
  function TwoSenders(m: string, n: string): seq<Input> {
    [SignalingConnected] + [SetLocalDescription(Print([VideoWith(m, SendRecv), VideoWith(n, SendRecv)], []))]
    + [UpdateLocalVideo(m, 100)] + [UpdateLocalVideo(n, 100)]
  }

  lemma {:induction false} TwoSendersClient(cfg: Config, m: string, n: string)
    requires m != n
    ensures var c := Run(cfg, TwoSenders(m, n)).client;
            && c.state == Connected
            && c.sdp == Print([VideoWith(m, SendRecv), VideoWith(n, SendRecv)], [])
            && c.localAudio == map[] && c.localVideo.Keys == {m, n}
            && c.localVideo[m].streamId == c.localVideo[n].streamId == 0
  {
    var sdp := Print([VideoWith(m, SendRecv), VideoWith(n, SendRecv)], []);
    RunSnoc(cfg, [], SignalingConnected);
    assert [] + [SignalingConnected] == [SignalingConnected];
    RunSnoc(cfg, [SignalingConnected], SetLocalDescription(sdp));
    RunSnoc(cfg, [SignalingConnected] + [SetLocalDescription(sdp)], UpdateLocalVideo(m, 100));
    RunSnoc(cfg, [SignalingConnected] + [SetLocalDescription(sdp)] + [UpdateLocalVideo(m, 100)],
            UpdateLocalVideo(n, 100));
  }

  /**
   * The answer brings back only the second of two sections, with one allocation: the SUBSCRIBE then sent has no stream
   * on the first section, whose place the allocation has, and the allocated stream on the second.
   */
  lemma {:induction false} MisalignedSubscribe(cfg: Config, m: string, n: string, a: Allocation)
    requires m != n && Free(m, CRLF) && Free(n, CRLF) && a.streamId != 0
    ensures var before := TwoSenders(m, n);
            var ack := SubscribeAck(Some(Print([VideoWith(n, RecvOnly)], [])), [a]);
            var sent, sub := Run(cfg, before + [SubscribeAckFrame(ack)] + [SendUpdates]).sent,
                SubscribeAfterAck(cfg, before, ack, []);
            && sent != [] && Last(sent) == Subscribe(sub)
            && |sub.sendStreams| == 2
            && sub.sendStreams[0].streamId == 0 && sub.sendStreams[1].streamId == a.streamId
            && !Aligned(sub.sendStreams, ack.allocations)
  {
    var before, answer := TwoSenders(m, n), Print([VideoWith(n, RecvOnly)], []);
    var ack := SubscribeAck(Some(answer), [a]);
    var c := Run(cfg, before).client;
    TwoSendersClient(cfg, m, n);
    TwoVideos(m, n, SendRecv);
    OneVideo(n, RecvOnly);
    AckedOffer(cfg, before, ack);
    var acked := before + [SubscribeAckFrame(ack)];
    assert acked + [] == acked;
    GivenSecond(c, m, n, a);
    SendUpdatesSends(cfg, acked);
    assert Sections(c.sdp)[0] == MediaSection(Video, m, SendRecv);
  }

  lemma {:induction false} GivenSecond(c: Client, m: string, n: string, a: Allocation)
    requires m != n && c.localAudio == map[] && c.localVideo.Keys == {m, n}
    ensures var after := Allocate(c, [MediaSection(Video, n, RecvOnly)], [a], 0);
            var offer := [MediaSection(Video, m, SendRecv), MediaSection(Video, n, SendRecv)];
            && after == GiveTo(c, n, a)
            && Descriptors(after, offer) == [DescriptorOf(c.localVideo[m]), DescriptorOf(after.localVideo[n])]
  {
    assert |c.localVideo| == |c.localVideo.Keys| && n in c.localVideo.Keys;
    var after := GiveTo(c, n, a);
    var offer := [MediaSection(Video, m, SendRecv), MediaSection(Video, n, SendRecv)];
    assert [MediaSection(Video, n, RecvOnly)][1..] == [];
    assert Init(offer) == [offer[0]] && Init([offer[0]]) == [];
    assert Descriptors(after, Init(offer)) == [DescriptorOf(after.localVideo[m])];
  }

  // ----- A mid moved to another attendee -----

  /** An index frame with two attendees, on streams 1 and 2. */
  function TwoSources(a: string, b: string): seq<IndexSource> {
    [IndexSource(1, 1, 100, a, ""), IndexSource(2, 2, 100, b, "")]
  }

  /** The request to receive `a` at `mid`. */
  function Asking(mid: string, a: string): Input {
    UpdateRemoteVideoSubscriptions(map[mid := SourceInfo(Attendee(a, ""), 100, 0)], [])
  }

  /** Connect, join, hear of two attendees, offer to receive one video. */
  function Hearing(a: string, b: string, mid: string): seq<Input> {
    [SignalingConnected] + [JoinAckFrame(FullAck(60), 0)] + [IndexFrame(Index(None, TwoSources(a, b)), 0)]
    + [SetLocalDescription(Print([VideoWith(mid, RecvOnly)], []))]
  }

  lemma {:induction false} TwoListed(a: string, b: string)
    requires a != b
    ensures var d := Refreshed(map[], TwoSources(a, b));
            a in d && b in d && d[a].streamId == 1 && d[b].streamId == 2
  {
    var sources := TwoSources(a, b);
    assert sources[0].attendeeId == a && sources[1].attendeeId == b;
    assert Init(sources) == [sources[0]] && Init([sources[0]]) == [];
    assert AttendeeIds([]) == {} && AttendeeIds([sources[0]]) == {a} by {
      assert [sources[0]][0].attendeeId == a;
    }
    assert FirstFor(sources, a) == sources[0] && FirstFor(sources, b) == sources[1];
  }

  lemma {:induction false} JoinedClient(cfg: Config)
    ensures var c := Run(cfg, [SignalingConnected] + [JoinAckFrame(FullAck(60), 0)]).client;
            c.state == Connected && c.isJoined
            && c.localVideo == c.localAudio == c.remoteVideo == c.directory == map[]
  {
    RunSnoc(cfg, [], SignalingConnected);
    assert [] + [SignalingConnected] == [SignalingConnected];
    RunSnoc(cfg, [SignalingConnected], JoinAckFrame(FullAck(60), 0));
  }

  lemma {:induction false} HearingClient(cfg: Config, a: string, b: string, mid: string)
    requires a != b
    ensures var c := Run(cfg, Hearing(a, b, mid)).client;
            && c.state == Connected && c.localVideo == c.localAudio == c.remoteVideo == map[]
            && c.sdp == Print([VideoWith(mid, RecvOnly)], [])
            && a in c.directory && b in c.directory
            && c.directory[a].streamId == 1 && c.directory[b].streamId == 2
  {
    var joined := [SignalingConnected] + [JoinAckFrame(FullAck(60), 0)];
    var index := Index(None, TwoSources(a, b));
    JoinedClient(cfg);
    RunSnoc(cfg, joined, IndexFrame(index, 0));
    var c := Run(cfg, joined).client;
    assert Run(cfg, joined + [IndexFrame(index, 0)]).client == IndexedClient(c, index);
    TwoListed(a, b);
    RunSnoc(cfg, joined + [IndexFrame(index, 0)], SetLocalDescription(Print([VideoWith(mid, RecvOnly)], [])));
  }

  /**
   * A mid is asked for `a` and then for `b`: the SUBSCRIBE then sent still asks for the stream of `a`, although the
   * directory has that of `b`.
   */
  lemma {:induction false} MovedMidKeepsStream(cfg: Config, a: string, b: string, mid: string)
    requires a != b && Free(mid, CRLF)
    ensures var asked := Hearing(a, b, mid) + [Asking(mid, a)] + [Asking(mid, b)];
            var log, sent := Run(cfg, asked), Run(cfg, asked + [SendUpdates]).sent;
            && b in log.client.directory && log.client.directory[b].streamId == 2
            && sent != [] && Last(sent).Subscribe? && Last(sent).sub.receiveStreamIds == [1]
  {
    var before := Hearing(a, b, mid);
    HearingClient(cfg, a, b, mid);
    RunSnoc(cfg, before, Asking(mid, a));
    RunSnoc(cfg, before + [Asking(mid, a)], Asking(mid, b));
    SubscriptionChange(cfg, Run(cfg, before), Asking(mid, a), mid);
    SubscriptionChange(cfg, Run(cfg, before + [Asking(mid, a)]), Asking(mid, b), mid);
    SendUpdatesSends(cfg, before + [Asking(mid, a)] + [Asking(mid, b)]);
    OneVideo(mid, RecvOnly);
    ReceiveOne(Run(cfg, before + [Asking(mid, a)] + [Asking(mid, b)]).client, mid);
  }

  lemma {:induction false} ReceiveOne(c: Client, mid: string)
    requires mid !in c.localVideo && mid in c.remoteVideo
    ensures ReceiveIds(c, [MediaSection(Video, mid, RecvOnly)]) == [c.remoteVideo[mid].streamId]
  {
    assert Init([MediaSection(Video, mid, RecvOnly)]) == [];
  }
}
