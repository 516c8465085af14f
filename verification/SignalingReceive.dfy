/** The streams a SUBSCRIBE asks for and sends, section by section and read off the inputs. */
module SignalingReceive {
  import opened Common
  import opened SdpText
  import opened Sdp
  import opened SignalingModel
  import opened SignalingWire
  import opened SignalingIndex
  import opened SignalingSession
  import opened SignalingView
  import opened SignalingSources
  import opened SignalingStreams
  import opened SignalingAllocations
  import opened SignalingLocal

  // ----- Receive ids by position -----

  /** The section has a receive id: audio with a local source, or video that is subscribed and not local. */
  predicate Receives(c: Client, s: MediaSection) {
    if s.kind == Audio then s.mid in c.localAudio else s.mid !in c.localVideo && s.mid in c.remoteVideo
  }

  function ReceiveCount(c: Client, sections: seq<MediaSection>): nat {
    if sections == [] then 0 else ReceiveCount(c, Init(sections)) + if Receives(c, Last(sections)) then 1 else 0
  }

  /** The receive ids are those of the receiving sections, in order: zero for audio and for inactive video. */
  lemma {:induction false} ReceiveIdAt(c: Client, sections: seq<MediaSection>, p: nat)
    requires p < |sections| && Receives(c, sections[p])
    ensures |ReceiveIds(c, sections)| == ReceiveCount(c, sections)
    ensures ReceiveCount(c, sections[..p]) < ReceiveCount(c, sections)
    ensures ReceiveIds(c, sections)[ReceiveCount(c, sections[..p])] ==
            if sections[p].kind == Audio || sections[p].direction == Inactive then 0
            else c.remoteVideo[sections[p].mid].streamId
  {
    ReceiveLength(c, sections);
    ReceiveLength(c, Init(sections));
    if p == |sections| - 1 {
      assert sections[..p] == Init(sections);
    } else {
      ReceiveIdAt(c, Init(sections), p);
      assert Init(sections)[..p] == sections[..p];
    }
  }

  lemma {:induction false} ReceiveLength(c: Client, sections: seq<MediaSection>)
    ensures |ReceiveIds(c, sections)| == ReceiveCount(c, sections)
  {
    if sections != [] {
      ReceiveLength(c, Init(sections));
    }
  }

  // ----- The same, read off the inputs -----

  /** After `inputs` the section has a receive id. */
  predicate AsksFor(cfg: Config, inputs: seq<Input>, s: MediaSection) {
    if s.kind == Audio then AudioAdded(inputs, s.mid)
    else VideoRate(inputs, s.mid).None? && FirstRequest(cfg, inputs, s.mid).Some?
  }

  function AskCount(cfg: Config, inputs: seq<Input>, sections: seq<MediaSection>): nat {
    if sections == [] then 0
    else AskCount(cfg, inputs, Init(sections)) + if AsksFor(cfg, inputs, Last(sections)) then 1 else 0
  }

  /** The stream a section asks for: that which the attendee first requested for its mid was introduced with. */
  function StreamAskedFor(cfg: Config, inputs: seq<Input>, s: MediaSection): u32
    requires AsksFor(cfg, inputs, s)
  {
    if s.kind == Audio || s.direction == Inactive then 0
    else
      var n := FirstRequest(cfg, inputs, s.mid).value;
      RequestedIsListed(cfg, inputs[..n], inputs[n], s.mid);
      IntroducedStream(inputs[..n], inputs[n].added[s.mid].attendee.attendeeId)
  }

  lemma {:induction false} RequestedIsListed(cfg: Config, inputs: seq<Input>, x: Input, mid: string)
    ensures Requests(Run(cfg, inputs).client, x, mid) <==>
            x.UpdateRemoteVideoSubscriptions? && mid in x.added && x.added[mid].attendee.attendeeId in ListedIds(inputs)
  {
    DirectoryFollowsInputs(cfg, inputs);
  }

  lemma {:induction false} AsksIsReceives(cfg: Config, inputs: seq<Input>, s: MediaSection)
    ensures AsksFor(cfg, inputs, s) <==> Receives(Run(cfg, inputs).client, s)
    ensures AsksFor(cfg, inputs, s) && s.kind == Video && s.direction != Inactive ==>
              Run(cfg, inputs).client.remoteVideo[s.mid].streamId == StreamAskedFor(cfg, inputs, s)
  {
    LocalFollowsInputs(cfg, inputs, s.mid);
    SubscribedStreamOrigin(cfg, inputs, s.mid);
    if AsksFor(cfg, inputs, s) && s.kind == Video {
      var n := FirstRequest(cfg, inputs, s.mid).value;
      RequestedIsListed(cfg, inputs[..n], inputs[n], s.mid);
      DirectoryEntryFollowsInputs(cfg, inputs[..n], inputs[n].added[s.mid].attendee.attendeeId);
    }
  }

  lemma {:induction false} AskCountIsReceiveCount(cfg: Config, inputs: seq<Input>, sections: seq<MediaSection>)
    ensures AskCount(cfg, inputs, sections) == ReceiveCount(Run(cfg, inputs).client, sections)
  {
    if sections != [] {
      AskCountIsReceiveCount(cfg, inputs, Init(sections));
      AsksIsReceives(cfg, inputs, Last(sections));
    }
  }

  // ----- The SUBSCRIBE of a run -----

  /** The ids a SUBSCRIBE asks for are, in order, those of the offer's sections that ask, as the inputs so far say. */
  ghost predicate AsksInOrder(cfg: Config, inputs: seq<Input>, ids: seq<u32>) {
    var sections := Sections(OfferSet(inputs));
    && |ids| == AskCount(cfg, inputs, sections)
    && forall p | 0 <= p < |sections| && AsksFor(cfg, inputs, sections[p]) ::
         var rank := AskCount(cfg, inputs, sections[..p]);
         rank < |ids| && ids[rank] == StreamAskedFor(cfg, inputs, sections[p])
  }

  lemma {:induction false} IdsInOrder(cfg: Config, inputs: seq<Input>)
    ensures AsksInOrder(cfg, inputs, ReceiveIds(Run(cfg, inputs).client, Sections(OfferSet(inputs))))
  {
    var c, sections := Run(cfg, inputs).client, Sections(OfferSet(inputs));
    AskCountIsReceiveCount(cfg, inputs, sections);
    ReceiveLength(c, sections);
    forall p | 0 <= p < |sections| && AsksFor(cfg, inputs, sections[p])
      ensures var rank := AskCount(cfg, inputs, sections[..p]);
              rank < |ReceiveIds(c, sections)|
              && ReceiveIds(c, sections)[rank] == StreamAskedFor(cfg, inputs, sections[p])
    {
      AsksIsReceives(cfg, inputs, sections[p]);
      AskCountIsReceiveCount(cfg, inputs, sections[..p]);
      ReceiveIdAt(c, sections, p);
    }
  }

  /** The section has a send descriptor: its mid is that of a local source of its own type. */
  predicate SendsFor(inputs: seq<Input>, s: MediaSection) {
    if s.kind == Audio then AudioAdded(inputs, s.mid) else VideoRate(inputs, s.mid).Some?
  }

  function SendCount(inputs: seq<Input>, sections: seq<MediaSection>): nat {
    if sections == [] then 0 else SendCount(inputs, Init(sections)) + if SendsFor(inputs, Last(sections)) then 1 else 0
  }

  /** The descriptor of a section: the ids allocated last, and the bitrate asked for last or zero for audio. */
  predicate DescribesSource(cfg: Config, inputs: seq<Input>, s: MediaSection, d: SendDescriptor) {
    && d.streamId == IdsAllocated(cfg, inputs, s).streamId && d.groupId == IdsAllocated(cfg, inputs, s).groupId
    && d.maxBitrateKbps == if s.kind == Audio then 0 else VideoRate(inputs, s.mid).GetOr(0)
  }

  ghost predicate SendsInOrder(cfg: Config, inputs: seq<Input>, streams: seq<SendDescriptor>) {
    var sections := Sections(OfferSet(inputs));
    && |streams| == SendCount(inputs, sections)
    && forall p | 0 <= p < |sections| && SendsFor(inputs, sections[p]) ::
         var rank := SendCount(inputs, sections[..p]);
         rank < |streams| && DescribesSource(cfg, inputs, sections[p], streams[rank])
  }

  lemma {:induction false} SendsIsOwn(cfg: Config, inputs: seq<Input>, s: MediaSection)
    ensures var c := Run(cfg, inputs).client;
            && (SendsFor(inputs, s) <==> s.mid in Own(c, s))
            && (SendsFor(inputs, s) ==> DescribesSource(cfg, inputs, s, DescriptorOf(Own(c, s)[s.mid])))
  {
    LocalFollowsInputs(cfg, inputs, s.mid);
    if SendsFor(inputs, s) {
      IdsFollowInputs(cfg, inputs, s);
    }
  }

  lemma {:induction false} DescriptorAt(cfg: Config, inputs: seq<Input>, sections: seq<MediaSection>, p: nat)
    requires p < |sections| && SendsFor(inputs, sections[p])
    ensures var streams, rank := Descriptors(Run(cfg, inputs).client, sections), SendCount(inputs, sections[..p]);
            rank < |streams| && DescribesSource(cfg, inputs, sections[p], streams[rank])
  {
    DescriptorCount(cfg, inputs, Init(sections));
    if p == |sections| - 1 {
      assert sections[..p] == Init(sections);
      SendsIsOwn(cfg, inputs, sections[p]);
    } else {
      DescriptorAt(cfg, inputs, Init(sections), p);
      assert Init(sections)[..p] == sections[..p];
    }
  }

  lemma {:induction false} DescriptorCount(cfg: Config, inputs: seq<Input>, sections: seq<MediaSection>)
    ensures |Descriptors(Run(cfg, inputs).client, sections)| == SendCount(inputs, sections)
  {
    if sections != [] {
      DescriptorCount(cfg, inputs, Init(sections));
      SendsIsOwn(cfg, inputs, Last(sections));
    }
  }

  lemma {:induction false} DescriptorsInOrder(cfg: Config, inputs: seq<Input>)
    ensures SendsInOrder(cfg, inputs, Descriptors(Run(cfg, inputs).client, Sections(OfferSet(inputs))))
  {
    var sections := Sections(OfferSet(inputs));
    DescriptorCount(cfg, inputs, sections);
    forall p | 0 <= p < |sections| && SendsFor(inputs, sections[p])
      ensures var rank, streams := SendCount(inputs, sections[..p]), Descriptors(Run(cfg, inputs).client, sections);
              rank < |streams| && DescribesSource(cfg, inputs, sections[p], streams[rank])
    {
      DescriptorAt(cfg, inputs, sections, p);
    }
  }

  /**
   * The SUBSCRIBE built after any run carries the offer set last, asks for the stream each of its sections asks for and
   * sends on each section with a local source, both in section order; it has descriptors only if a video section sends,
   * the audio host if one is configured and the mute flag if it is set.
   */
  lemma {:induction false} SubscribeFollowsInputs(cfg: Config, inputs: seq<Input>)
    ensures var sub := BuildSubscription(cfg, Run(cfg, inputs).client);
            && sub.sdpOffer == OfferSet(inputs)
            && AsksInOrder(cfg, inputs, sub.receiveStreamIds)
            && (sub.duplex == Duplex <==> SendsVideo(Sections(OfferSet(inputs))))
            && (if sub.duplex == Duplex then SendsInOrder(cfg, inputs, sub.sendStreams) else sub.sendStreams == [])
            && sub.audioHost == (if cfg.audioHostUrl == "" then None else Some(cfg.audioHostUrl))
            && sub.audioMuted == (if MuteAsked(cfg, inputs) then Some(true) else None)
  {
    LocalFollowsInputs(cfg, inputs, "");
    IdsInOrder(cfg, inputs);
    DescriptorsInOrder(cfg, inputs);
  }

  /** The input ends the local source of `mid` and type `kind`: it removes it or acknowledges the leave. */
  predicate EndsSource(x: Input, kind: MediaType, mid: string) {
    x.LeaveAckFrame? || (if kind == Video then x == RemoveLocalVideo(mid) else x == RemoveLocalAudio(mid))
  }

  /** The input asks for the local source of `mid` and type `kind`. */
  predicate AddsSource(x: Input, kind: MediaType, mid: string) {
    if kind == Video then x.UpdateLocalVideo? && x.mid == mid else x.UpdateLocalAudio? && x.mid == mid
  }

  /** A local source that was ended and not added again has no descriptor in any later SUBSCRIBE. */
  lemma {:induction false} EndedSourceIsGone(inputs: seq<Input>, end: Input, more: seq<Input>, s: MediaSection)
    requires EndsSource(end, s.kind, s.mid)
    requires forall i | 0 <= i < |more| :: !AddsSource(more[i], s.kind, s.mid)
    ensures !SendsFor(inputs + [end] + more, s)
  {
    if more == [] {
      assert inputs + [end] + more == inputs + [end] && Init(inputs + [end]) == inputs;
    } else {
      EndedSourceIsGone(inputs, end, Init(more), s);
      assert Last(more) == more[|more| - 1];
      assert Init(inputs + [end] + more) == inputs + [end] + Init(more);
    }
  }
}
