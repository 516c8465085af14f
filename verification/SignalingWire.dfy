/** The language of frames a client puts on the wire, and what the wire says about muting. */
module SignalingWire {
  import opened Common
  import opened Sdp
  import opened SignalingModel

  // ----- The language -----

  /** JOIN, then any SUBSCRIBE, DATA_MESSAGE and AUDIO_CONTROL frames, then at most one LEAVE. */
  predicate ConnectionBlock(frames: seq<WireFrame>) {
    && frames != [] && frames[0].Join?
    && forall i | 0 < i < |frames| :: !frames[i].Join? && (frames[i].Leave? ==> i == |frames| - 1)
  }

  ghost predicate IsDecomposition(blocks: seq<seq<WireFrame>>, frames: seq<WireFrame>) {
    Flatten(blocks) == frames && forall i | 0 <= i < |blocks| :: ConnectionBlock(blocks[i])
  }

  ghost predicate InWireLanguage(frames: seq<WireFrame>) {
    exists blocks: seq<seq<WireFrame>> :: IsDecomposition(blocks, frames)
  }

  /** A JOIN has been sent and no LEAVE since. */
  predicate Open(frames: seq<WireFrame>) {
    frames != [] && !Last(frames).Leave? && (Last(frames).Join? || Open(Init(frames)))
  }

  lemma {:induction false} JoinOpensBlock(frames: seq<WireFrame>, f: WireFrame)
    requires InWireLanguage(frames) && f.Join?
    ensures InWireLanguage(frames + [f]) && Open(frames + [f])
  {
    var blocks :| IsDecomposition(blocks, frames);
    assert Init(blocks + [[f]]) == blocks;
    assert IsDecomposition(blocks + [[f]], frames + [f]);
  }

  lemma {:induction false} FrameExtendsBlock(frames: seq<WireFrame>, f: WireFrame)
    requires InWireLanguage(frames) && Open(frames) && !f.Join?
    ensures InWireLanguage(frames + [f])
    ensures Open(frames + [f]) <==> !f.Leave?
  {
    var blocks :| IsDecomposition(blocks, frames);
    assert blocks != [] by { assert frames != []; }
    var block := Last(blocks);
    assert ConnectionBlock(blocks[|blocks| - 1]);
    assert Last(frames) == Last(block);
    assert ConnectionBlock(block + [f]);
    var extended := Init(blocks) + [block + [f]];
    assert Init(extended) == Init(blocks);
    AppendAssociative(Flatten(Init(blocks)), block, [f]);
    assert IsDecomposition(extended, frames + [f]);
    assert Init(frames + [f]) == frames;
  }

  /** The language by neighbours: a JOIN comes first, and nothing but a JOIN after a LEAVE. */
  predicate JoinsFirst(frames: seq<WireFrame>) {
    && (frames != [] ==> frames[0].Join?)
    && forall i | 0 < i < |frames| :: frames[i].Join? || !frames[i - 1].Leave?
  }

  lemma {:induction false} DropLast(frames: seq<WireFrame>)
    requires InWireLanguage(frames) && frames != []
    ensures InWireLanguage(Init(frames))
    ensures Last(frames).Join? || (|frames| > 1 && !Last(Init(frames)).Leave?)
  {
    var blocks :| IsDecomposition(blocks, frames);
    assert blocks != [];
    var block := Last(blocks);
    assert ConnectionBlock(blocks[|blocks| - 1]);
    var before := Flatten(Init(blocks));
    assert frames == before + block;
    if |block| == 1 {
      assert Init(frames) == before;
      assert IsDecomposition(Init(blocks), Init(frames));
    } else {
      var shorter := Init(blocks) + [Init(block)];
      assert Init(shorter) == Init(blocks) && Last(shorter) == Init(block);
      assert Init(frames) == before + Init(block);
      assert ConnectionBlock(Init(block));
      assert IsDecomposition(shorter, Init(frames));
    }
  }

  lemma {:induction false} OpenByNeighbours(frames: seq<WireFrame>)
    requires JoinsFirst(frames)
    ensures Open(frames) <==> frames != [] && !Last(frames).Leave?
  {
    if |frames| > 1 {
      OpenByNeighbours(Init(frames));
      assert Last(Init(frames)) == frames[|frames| - 2];
    }
  }

  lemma {:induction false} LanguageIsLocal(frames: seq<WireFrame>)
    ensures InWireLanguage(frames) <==> JoinsFirst(frames)
  {
    if frames == [] {
      assert IsDecomposition([], frames);
    } else {
      var init, f := Init(frames), Last(frames);
      LanguageIsLocal(init);
      assert frames == init + [f];
      if InWireLanguage(frames) {
        DropLast(frames);
      } else if JoinsFirst(frames) {
        assert JoinsFirst(init);
        OpenByNeighbours(init);
        if f.Join? {
          JoinOpensBlock(init, f);
        } else {
          assert Last(init) == frames[|frames| - 2];
          FrameExtendsBlock(init, f);
        }
      }
    }
  }

  /**
   * The wire language. In every run, whatever is called and received, the frames sent are a sequence of connection
   * blocks, so nothing but the JOIN of the next connection follows a LEAVE; and a connected client's block is open.
   */
  lemma {:induction false} WireLanguage(cfg: Config, inputs: seq<Input>)
    ensures InWireLanguage(Run(cfg, inputs).sent)
    ensures Run(cfg, inputs).client.state == Connected ==> Open(Run(cfg, inputs).sent)
  {
    if inputs == [] {
      assert IsDecomposition([], Run(cfg, inputs).sent);
    } else {
      WireLanguage(cfg, Init(inputs));
      var log, x := Run(cfg, Init(inputs)), Last(inputs);
      var after := Step(cfg, log, x);
      SendsAtMostOne(cfg, log, x);
      if after.sent != log.sent {
        var f := Last(after.sent);
        if f.Join? {
          JoinOpensBlock(log.sent, f);
        } else {
          FrameExtendsBlock(log.sent, f);
        }
      }
    }
  }

  /** One input sends at most one frame: a JOIN when the transport connects, any other frame only while connected. */
  lemma {:induction false} SendsAtMostOne(cfg: Config, log: Log, x: Input)
    ensures var after := Step(cfg, log, x);
            && (after.sent == log.sent || (after.sent != [] && after.sent == log.sent + [Last(after.sent)]))
            && (after.sent != log.sent ==>
                  && (Last(after.sent).Join? <==> x.SignalingConnected?)
                  && (Last(after.sent).Leave? <==> x.Stop?)
                  && (!Last(after.sent).Join? ==> log.client.state == Connected)
                  && (Last(after.sent).Leave? <==> after.client.state == Disconnecting))
            && (x.SignalingConnected? ==> after.sent != log.sent)
            && (after.client.state == Connected ==> log.client.state == Connected || x.SignalingConnected?)
            && (x.Stop? && log.client.state == Connected ==> after.sent != log.sent)
  {
    match x
    case SubscribeAckFrame(ack) =>
      if ack.sdpAnswer.Some? {
        AllocateOnlyLocal(log.client, Sections(ack.sdpAnswer.value), ack.allocations, 0);
      }
    case _ =>
  }

  /** Allocation touches the two maps of local sources only, and none of their keys. */
  lemma {:induction false} AllocateOnlyLocal(
    c: Client, sections: seq<MediaSection>, allocations: seq<Allocation>, next: nat)
    ensures var after := Allocate(c, sections, allocations, next);
            && after.(localAudio := c.localAudio, localVideo := c.localVideo) == c
            && after.localAudio.Keys == c.localAudio.Keys && after.localVideo.Keys == c.localVideo.Keys
    decreases |sections|
  {
    if sections == [] || next >= |allocations| || next >= |c.localAudio| + |c.localVideo| {
    } else if LocalMid(c, sections[0].mid) {
      var given := GiveTo(c, sections[0].mid, allocations[next]);
      GiveToOnlyLocal(c, sections[0].mid, allocations[next]);
      AllocateOnlyLocal(given, sections[1..], allocations, next + 1);
    } else {
      AllocateOnlyLocal(c, sections[1..], allocations, next);
    }
  }

  lemma {:induction false} GiveToOnlyLocal(c: Client, mid: string, a: Allocation)
    requires LocalMid(c, mid)
    ensures var after := GiveTo(c, mid, a);
            && after.(localAudio := c.localAudio, localVideo := c.localVideo) == c
            && after.localAudio.Keys == c.localAudio.Keys && after.localVideo.Keys == c.localVideo.Keys
  {
    var after := GiveTo(c, mid, a);
    assert after.localAudio.Keys == c.localAudio.Keys;
    assert after.localVideo.Keys == c.localVideo.Keys;
  }

  // ----- Muting -----

  /** The mute flag last put on the wire since the latest JOIN; an unset flag in a SUBSCRIBE means false. */
  function WireMute(frames: seq<WireFrame>): Option<bool> {
    if frames == [] then None
    else match Last(frames)
      case Join(_, _, _) => None
      case Subscribe(sub) => Some(sub.audioMuted.GetOr(false))
      case AudioControl(muted) => Some(muted)
      case _ => WireMute(Init(frames))
  }

  /** The AUDIO_CONTROL values sent since the latest JOIN. */
  function Controls(frames: seq<WireFrame>): seq<bool> {
    if frames == [] then []
    else match Last(frames)
      case Join(_, _, _) => []
      case AudioControl(muted) => Controls(Init(frames)) + [muted]
      case _ => Controls(Init(frames))
  }

  predicate StrictlyAlternates(values: seq<bool>) {
    forall i | 0 < i < |values| :: values[i] != values[i - 1]
  }

  /** A SUBSCRIBE has been sent since the latest JOIN. */
  predicate SubscribedSinceJoin(frames: seq<WireFrame>) {
    frames != [] && !Last(frames).Join? && (Last(frames).Subscribe? || SubscribedSinceJoin(Init(frames)))
  }

  lemma {:induction false} WireMuteSnoc(frames: seq<WireFrame>, f: WireFrame)
    ensures WireMute(frames + [f]) ==
            if f.Join? then None else if f.Subscribe? then Some(f.sub.audioMuted.GetOr(false))
            else if f.AudioControl? then Some(f.muted) else WireMute(frames)
    ensures Controls(frames + [f]) ==
            if f.Join? then [] else if f.AudioControl? then Controls(frames) + [f.muted] else Controls(frames)
  {
    assert Init(frames + [f]) == frames;
  }

  /** Only `UpdateLocalAudio` changes the mute flag, and while connected it announces the change. */
  lemma {:induction false} MuteEffect(cfg: Config, log: Log, x: Input)
    ensures var after := Step(cfg, log, x);
            && after.client.isMuted == (if x.UpdateLocalAudio? then x.mute else log.client.isMuted)
            && (after.sent != log.sent && Last(after.sent).AudioControl? ==>
                  x.UpdateLocalAudio? && x.mute != log.client.isMuted && Last(after.sent).muted == x.mute)
            && (after.sent != log.sent && Last(after.sent).Subscribe? ==>
                  Last(after.sent).sub.audioMuted.GetOr(false) == log.client.isMuted)
            && (x.UpdateLocalAudio? && x.mute != log.client.isMuted && log.client.state == Connected ==>
                after.sent != log.sent)
  {
    SendsAtMostOne(cfg, log, x);
    if x.SubscribeAckFrame? && x.subAck.sdpAnswer.Some? {
      AllocateOnlyLocal(log.client, Sections(x.subAck.sdpAnswer.value), x.subAck.allocations, 0);
    }
  }

  predicate MuteInvariant(log: Log) {
    && StrictlyAlternates(Controls(log.sent))
    && (log.client.state == Connected ==>
          && (WireMute(log.sent).Some? ==> WireMute(log.sent).value == log.client.isMuted)
          && (Controls(log.sent) != [] ==> Last(Controls(log.sent)) == log.client.isMuted))
  }

  /**
   * Mute agreement. While connected, a mute flag on the wire since the JOIN is the client's; AUDIO_CONTROL values
   * within one connection strictly alternate, whatever state the client is in.
   */
  lemma {:induction false} MuteAgreement(cfg: Config, inputs: seq<Input>)
    ensures MuteInvariant(Run(cfg, inputs))
  {
    if inputs != [] {
      MuteAgreement(cfg, Init(inputs));
      var log, x := Run(cfg, Init(inputs)), Last(inputs);
      SendsAtMostOne(cfg, log, x);
      MuteEffect(cfg, log, x);
      MuteInvariantKept(log, Run(cfg, inputs));
    }
  }

  lemma {:induction false} MuteInvariantKept(log: Log, after: Log)
    requires MuteInvariant(log)
    requires after.sent == log.sent || (after.sent != [] && after.sent == log.sent + [Last(after.sent)])
    requires after.sent == log.sent ==>
               after.client.state == Connected ==>
                   log.client.state == Connected && after.client.isMuted == log.client.isMuted
    requires after.sent != log.sent ==>
               var f := Last(after.sent);
               && (f.Join? || log.client.state == Connected)
               && (f.AudioControl? ==> f.muted == after.client.isMuted != log.client.isMuted)
               && (!f.AudioControl? ==> after.client.isMuted == log.client.isMuted)
               && (f.Subscribe? ==> f.sub.audioMuted.GetOr(false) == log.client.isMuted)
    ensures MuteInvariant(after)
  {
    if after.sent != log.sent {
      WireMuteSnoc(log.sent, Last(after.sent));
    }
  }

  /** Once a SUBSCRIBE went out on the connection, the flag on the wire exists, so it is the client's. */
  lemma {:induction false} SubscribePublishesMute(frames: seq<WireFrame>)
    requires SubscribedSinceJoin(frames)
    ensures WireMute(frames).Some?
  {
    if !Last(frames).Subscribe? {
      SubscribePublishesMute(Init(frames));
    }
  }

  lemma {:induction false} MuteAgreesOnceSubscribed(cfg: Config, inputs: seq<Input>)
    requires Run(cfg, inputs).client.state == Connected && SubscribedSinceJoin(Run(cfg, inputs).sent)
    ensures WireMute(Run(cfg, inputs).sent) == Some(Run(cfg, inputs).client.isMuted)
  {
    SubscribePublishesMute(Run(cfg, inputs).sent);
    MuteAgreement(cfg, inputs);
  }
}
