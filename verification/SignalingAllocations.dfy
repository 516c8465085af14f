/** Which allocations of an acknowledgement the send streams of later SUBSCRIBE frames carry. */
module SignalingAllocations {
  import opened Common
  import opened Sdp
  import opened SignalingModel
  import opened SignalingWire
  import opened SignalingSession
  import opened SignalingStreams

  // ----- Senders of the offer and slots of the answer -----

  /** The local sources of a section's own type. */
  function Own(c: Client, s: MediaSection): map<string, StreamConfig> {
    if s.kind == Audio then c.localAudio else c.localVideo
  }

  /** The sections with a local source of their own type, which is what gives them a send descriptor. */
  function Senders(c: Client, sections: seq<MediaSection>): seq<MediaSection> {
    if sections == [] then []
    else Senders(c, Init(sections)) + if Last(sections).mid in Own(c, Last(sections)) then [Last(sections)] else []
  }

  /** The local mids of the sections, in order. */
  function Slots(c: Client, sections: seq<MediaSection>): seq<string> {
    if sections == [] then []
    else (if LocalMid(c, sections[0].mid) then [sections[0].mid] else []) + Slots(c, sections[1..])
  }

  function LocalCount(c: Client): nat {
    |c.localAudio| + |c.localVideo|
  }

  predicate SameKeys(c: Client, d: Client) {
    c.localAudio.Keys == d.localAudio.Keys && c.localVideo.Keys == d.localVideo.Keys
  }

  lemma {:induction false} SameKeysSameWalk(c: Client, d: Client, sections: seq<MediaSection>)
    requires SameKeys(c, d)
    ensures Slots(c, sections) == Slots(d, sections)
  {
    if sections != [] {
      SameKeysSameWalk(c, d, sections[1..]);
    }
  }

  lemma {:induction false} SameKeysSameSenders(c: Client, d: Client, sections: seq<MediaSection>)
    requires SameKeys(c, d)
    ensures Senders(c, sections) == Senders(d, sections)
  {
    if sections != [] {
      SameKeysSameSenders(c, d, Init(sections));
    }
  }

  /** The k-th descriptor is that of the k-th sender. */
  lemma {:induction false} DescriptorsFollowSenders(c: Client, sections: seq<MediaSection>)
    ensures |Descriptors(c, sections)| == |Senders(c, sections)|
    ensures forall k | 0 <= k < |Senders(c, sections)| ::
              var s := Senders(c, sections)[k];
              s.mid in Own(c, s) && Descriptors(c, sections)[k] == DescriptorOf(Own(c, s)[s.mid])
  {
    if sections != [] {
      DescriptorsFollowSenders(c, Init(sections));
    }
  }

  // ----- Allocation by position -----

  /** A source with the ids of an allocation, or as it was. */
  function Given(config: StreamConfig, a: Option<Allocation>): StreamConfig {
    match a
    case None => config
    case Some(allocation) => config.(streamId := allocation.streamId, groupId := allocation.groupId)
  }

  /**
   * The last allocation standing where `mid` stands among the slots, counting allocations from `next` and stopping at
   * `limit`.
   */
  function Share(slots: seq<string>, allocations: seq<Allocation>, next: nat, limit: nat,
      mid: string): Option<Allocation> {
    if slots == [] || next >= |allocations| || next >= limit then None
    else
      var later := Share(slots[1..], allocations, next + 1, limit, mid);
      if later.None? && slots[0] == mid then Some(allocations[next]) else later
  }

  /** Position `j` is the last at which `mid` stands among the slots an allocation reaches. */
  predicate LastPosition(slots: seq<string>, reach: int, mid: string, j: int) {
    0 <= j < |slots| && j < reach && slots[j] == mid && forall i | j < i < |slots| && i < reach :: slots[i] != mid
  }

  lemma {:induction false} ShareAt(
    slots: seq<string>, allocations: seq<Allocation>, next: nat, limit: nat, mid: string, j: nat)
    requires var reach := if |allocations| < limit then |allocations| else limit;
             LastPosition(slots, reach - next, mid, j)
    ensures next + j < |allocations|
    ensures Share(slots, allocations, next, limit, mid) == Some(allocations[next + j])
    decreases |slots|
  {
    if j > 0 {
      assert slots[1..][j - 1] == slots[j];
      ShareAt(slots[1..], allocations, next + 1, limit, mid, j - 1);
    } else {
      NoShare(slots[1..], allocations, next + 1, limit, mid);
    }
  }

  lemma {:induction false} NoShare(
    slots: seq<string>, allocations: seq<Allocation>, next: nat, limit: nat, mid: string)
    requires forall i | 0 <= i < |slots| && next + i < |allocations| && next + i < limit :: slots[i] != mid
    ensures Share(slots, allocations, next, limit, mid) == None
    decreases |slots|
  {
    if slots != [] && next < |allocations| && next < limit {
      assert slots[0] != mid;
      assert forall i | 0 <= i < |slots[1..]| :: slots[1..][i] == slots[i + 1];
      NoShare(slots[1..], allocations, next + 1, limit, mid);
    }
  }

  lemma {:induction false} ShareSource(
    slots: seq<string>, allocations: seq<Allocation>, next: nat, limit: nat, mid: string) returns (j: nat)
    requires Share(slots, allocations, next, limit, mid).Some?
    ensures var reach := if |allocations| < limit then |allocations| else limit;
            LastPosition(slots, reach - next, mid, j)
    ensures next + j < |allocations|
    ensures Share(slots, allocations, next, limit, mid) == Some(allocations[next + j])
    decreases |slots|
  {
    if Share(slots[1..], allocations, next + 1, limit, mid).Some? {
      j := ShareSource(slots[1..], allocations, next + 1, limit, mid);
      j := j + 1;
      assert forall i | 0 < i < |slots| :: slots[i] == slots[1..][i - 1];
    } else {
      j := 0;
      assert forall i | 0 < i < |slots| :: slots[i] == slots[1..][i - 1];
      NoShareOnly(slots[1..], allocations, next + 1, limit, mid);
    }
  }

  lemma {:induction false} NoShareOnly(
    slots: seq<string>, allocations: seq<Allocation>, next: nat, limit: nat, mid: string)
    requires Share(slots, allocations, next, limit, mid).None?
    ensures forall i | 0 <= i < |slots| && next + i < |allocations| && next + i < limit :: slots[i] != mid
    decreases |slots|
  {
    if slots != [] && next < |allocations| && next < limit {
      NoShareOnly(slots[1..], allocations, next + 1, limit, mid);
      assert forall i | 0 < i < |slots| :: slots[i] == slots[1..][i - 1];
    }
  }

  /** The share of a section's source: a video source whose mid is also local audio never gets one. */
  function ShareOf(c: Client, slots: seq<string>, allocations: seq<Allocation>, next: nat,
      s: MediaSection): Option<Allocation> {
    if s.kind == Video && s.mid in c.localAudio then None
    else Share(slots, allocations, next, LocalCount(c), s.mid)
  }

  lemma {:induction false} GivenCount(c: Client, mid: string, a: Allocation)
    requires LocalMid(c, mid)
    ensures SameKeys(c, GiveTo(c, mid, a)) && LocalCount(GiveTo(c, mid, a)) == LocalCount(c)
  {
    var given := GiveTo(c, mid, a);
    assert given.localAudio.Keys == c.localAudio.Keys && given.localVideo.Keys == c.localVideo.Keys;
    assert |given.localAudio| == |given.localAudio.Keys| && |given.localVideo| == |given.localVideo.Keys|;
    assert |c.localAudio| == |c.localAudio.Keys| && |c.localVideo| == |c.localVideo.Keys|;
  }

  lemma {:induction false} GivenSource(c: Client, mid: string, a: Allocation, s: MediaSection)
    requires LocalMid(c, mid) && s.mid in Own(c, s)
    ensures var given := GiveTo(c, mid, a);
            && SameKeys(c, given) && LocalCount(given) == LocalCount(c)
            && Own(given, s)[s.mid] ==
               Given(Own(c, s)[s.mid],
                     if s.mid == mid && !(s.kind == Video && s.mid in c.localAudio) then Some(a) else None)
  {
    GivenCount(c, mid, a);
  }

  /** Every local source gets its share of the allocations, whatever the sections are. */
  lemma {:induction false} AllocateShares(
    c: Client, sections: seq<MediaSection>, allocations: seq<Allocation>, next: nat, s: MediaSection)
    requires s.mid in Own(c, s)
    ensures var after := Allocate(c, sections, allocations, next);
            && s.mid in Own(after, s)
            && Own(after, s)[s.mid] == Given(Own(c, s)[s.mid], ShareOf(c, Slots(c, sections), allocations, next, s))
    decreases |sections|
  {
    if sections != [] && next < |allocations| && next < LocalCount(c) {
      var first, rest, slots := sections[0].mid, sections[1..], Slots(c, sections);
      if LocalMid(c, first) {
        assert slots == [first] + Slots(c, rest) && slots[1..] == Slots(c, rest);
        var given := GiveTo(c, first, allocations[next]);
        GivenSource(c, first, allocations[next], s);
        SameKeysSameWalk(c, given, rest);
        AllocateShares(given, rest, allocations, next + 1, s);
      } else {
        assert slots == Slots(c, rest);
        AllocateShares(c, rest, allocations, next, s);
      }
    } else if sections == [] {
      assert Slots(c, sections) == [];
    }
  }

  /**
   * What an acknowledgement does to the offer's descriptors, whatever the offer, the answer and the allocations: there
   * is one for each sender, and it carries the last allocation at its mid's places among the answer's local mids, as
   * far as allocations and local sources reach, or keeps its ids when there is none.
   */
  lemma {:induction false} DescriptorAfterAck(
    c: Client, offer: seq<MediaSection>, answer: seq<MediaSection>, allocations: seq<Allocation>, k: nat)
    ensures var after := Allocate(c, answer, allocations, 0);
            && |Descriptors(after, offer)| == |Senders(c, offer)|
            && (k < |Senders(c, offer)| ==>
                  var s := Senders(c, offer)[k];
                  && s.mid in Own(c, s)
                  && Descriptors(after, offer)[k] ==
                     DescriptorOf(Given(Own(c, s)[s.mid], ShareOf(c, Slots(c, answer), allocations, 0, s))))
  {
    var after := Allocate(c, answer, allocations, 0);
    AllocateOnlyLocal(c, answer, allocations, 0);
    SameKeysSameSenders(c, after, offer);
    DescriptorsFollowSenders(c, offer);
    DescriptorsFollowSenders(after, offer);
    if k < |Senders(c, offer)| {
      AllocateShares(c, answer, allocations, 0, Senders(c, offer)[k]);
    }
  }

  // ----- When descriptors and allocations are aligned -----

  predicate Carries(d: SendDescriptor, a: Allocation) {
    d.streamId == a.streamId && d.groupId == a.groupId
  }

  /** Descriptor k carries allocation k, for every k below both counts. */
  predicate Aligned(descriptors: seq<SendDescriptor>, allocations: seq<Allocation>) {
    forall k | 0 <= k < |descriptors| && k < |allocations| :: Carries(descriptors[k], allocations[k])
  }

  predicate AlignedAfterAck(
    c: Client, offer: seq<MediaSection>, answer: seq<MediaSection>, allocations: seq<Allocation>)
  {
    Aligned(Descriptors(Allocate(c, answer, allocations, 0), offer), allocations)
  }

  /**
   * The answer's local mids begin with the mids of the offer's senders; none of those stands on a video section while
   * being local audio, and none comes again within reach of the allocations.
   */
  predicate SlotsMatch(c: Client, offer: seq<MediaSection>, answer: seq<MediaSection>) {
    var senders, slots := Senders(c, offer), Slots(c, answer);
    forall k | 0 <= k < |senders| ::
      && (senders[k].kind == Video ==> senders[k].mid !in c.localAudio)
      && LastPosition(slots, LocalCount(c), senders[k].mid, k)
  }

  lemma {:induction false} MatchAligns(
    c: Client, offer: seq<MediaSection>, answer: seq<MediaSection>, allocations: seq<Allocation>)
    requires SlotsMatch(c, offer, answer)
    ensures AlignedAfterAck(c, offer, answer, allocations)
  {
    var descriptors := Descriptors(Allocate(c, answer, allocations, 0), offer);
    DescriptorAfterAck(c, offer, answer, allocations, 0);
    forall k | 0 <= k < |descriptors| && k < |allocations| ensures Carries(descriptors[k], allocations[k]) {
      DescriptorAfterAck(c, offer, answer, allocations, k);
      ShareAt(Slots(c, answer), allocations, 0, LocalCount(c), Senders(c, offer)[k].mid, k);
    }
  }

  /** Allocations that give position `k` ids no other position gives. */
  function Marked(n: nat, k: nat, mark: u32, other: u32): seq<Allocation> {
    seq(n, i => if i == k then Allocation(mark, mark) else Allocation(other, other))
  }

  lemma {:induction false} AlignmentNeedsMatch(c: Client, offer: seq<MediaSection>, answer: seq<MediaSection>, k: nat)
    requires forall allocations: seq<Allocation> :: AlignedAfterAck(c, offer, answer, allocations)
    requires k < |Senders(c, offer)|
    ensures Senders(c, offer)[k].kind == Video ==> Senders(c, offer)[k].mid !in c.localAudio
    ensures LastPosition(Slots(c, answer), LocalCount(c), Senders(c, offer)[k].mid, k)
  {
    var s, slots := Senders(c, offer)[k], Slots(c, answer);
    DescriptorsFollowSenders(c, offer);
    var mark: u32 := if Own(c, s)[s.mid].streamId == 0 then 1 else 0;
    var allocations := Marked(k + 1 + |slots|, k, mark, 1 - mark);
    assert AlignedAfterAck(c, offer, answer, allocations);
    DescriptorAfterAck(c, offer, answer, allocations, k);
    var d := Descriptors(Allocate(c, answer, allocations, 0), offer)[k];
    assert Carries(d, allocations[k]) && d.streamId == mark;
    var share := ShareOf(c, slots, allocations, 0, s);
    assert share.Some? && share.value.streamId == mark;
    var j := ShareSource(slots, allocations, 0, LocalCount(c), s.mid);
    assert allocations[j].streamId == mark && j == k;
  }

  /**
   * Subscribe and acknowledgement are aligned for every list of allocations the server may send if and only if the
   * answer's slots match the offer's senders, which can be read off the two descriptions and the local mids.
   */
  lemma {:induction false} AlignmentIff(c: Client, offer: seq<MediaSection>, answer: seq<MediaSection>)
    ensures (forall allocations: seq<Allocation> :: AlignedAfterAck(c, offer, answer, allocations))
            <==> SlotsMatch(c, offer, answer)
  {
    if SlotsMatch(c, offer, answer) {
      forall allocations: seq<Allocation> ensures AlignedAfterAck(c, offer, answer, allocations) {
        MatchAligns(c, offer, answer, allocations);
      }
    }
    if forall allocations: seq<Allocation> :: AlignedAfterAck(c, offer, answer, allocations) {
      forall k | 0 <= k < |Senders(c, offer)|
        ensures Senders(c, offer)[k].kind == Video ==> Senders(c, offer)[k].mid !in c.localAudio
        ensures LastPosition(Slots(c, answer), LocalCount(c), Senders(c, offer)[k].mid, k)
      {
        AlignmentNeedsMatch(c, offer, answer, k);
      }
    }
  }

  // ----- The matched case and a shifted one -----

  /** Local audio mids stand on audio sections only, local video mids on video sections only. */
  predicate OwnTypes(c: Client, sections: seq<MediaSection>) {
    forall i | 0 <= i < |sections| ::
      if sections[i].kind == Audio then sections[i].mid !in c.localVideo else sections[i].mid !in c.localAudio
  }

  /** Two descriptions announce the same sections, up to direction. */
  predicate SameShape(a: seq<MediaSection>, b: seq<MediaSection>) {
    |a| == |b| && forall i | 0 <= i < |a| :: a[i].kind == b[i].kind && a[i].mid == b[i].mid
  }

  predicate DistinctMids(sections: seq<MediaSection>) {
    forall i, j | 0 <= i < j < |sections| :: sections[i].mid != sections[j].mid
  }

  /** The answer has the offer's sections in type and mid, mids are distinct, local mids stand on their own type. */
  predicate WellMatched(c: Client, offer: seq<MediaSection>, answer: seq<MediaSection>) {
    SameShape(offer, answer) && DistinctMids(offer) && OwnTypes(c, offer)
  }

  function Mids(sections: seq<MediaSection>): seq<string> {
    seq(|sections|, i requires 0 <= i < |sections| => sections[i].mid)
  }

  predicate Distinct(mids: seq<string>) {
    forall i, j | 0 <= i < j < |mids| :: mids[i] != mids[j]
  }

  lemma {:induction false} SlotsSnoc(c: Client, sections: seq<MediaSection>)
    requires sections != []
    ensures Slots(c, sections)
         == Slots(c, Init(sections)) + if LocalMid(c, Last(sections).mid) then [Last(sections).mid] else []
  {
    if |sections| > 1 {
      SlotsSnoc(c, sections[1..]);
      assert Init(sections)[1..] == Init(sections[1..]);
      assert Last(sections[1..]) == Last(sections);
    } else {
      assert Slots(c, sections[1..]) == [];
    }
  }

  lemma {:induction false} SameShapeSameSlots(c: Client, a: seq<MediaSection>, b: seq<MediaSection>)
    requires SameShape(a, b)
    ensures Slots(c, a) == Slots(c, b)
  {
    if a != [] {
      SameShapeSameSlots(c, a[1..], b[1..]);
    }
  }

  /** With own types, the senders' mids are the slots and no video sender is local audio. */
  lemma {:induction false} SendersAreSlots(c: Client, sections: seq<MediaSection>)
    requires OwnTypes(c, sections)
    ensures Mids(Senders(c, sections)) == Slots(c, sections)
    ensures forall k | 0 <= k < |Senders(c, sections)| ::
              var s := Senders(c, sections)[k];
              s in sections && LocalMid(c, s.mid) && (s.kind == Video ==> s.mid !in c.localAudio)
  {
    if sections != [] {
      SendersAreSlots(c, Init(sections));
      SlotsSnoc(c, sections);
      assert Last(sections) == sections[|sections| - 1];
      assert forall s :: s in Init(sections) ==> s in sections;
    }
  }

  lemma {:induction false} DistinctMidsDistinctSenders(c: Client, sections: seq<MediaSection>)
    requires DistinctMids(sections) && OwnTypes(c, sections)
    ensures Distinct(Slots(c, sections))
  {
    if sections != [] {
      var init := Init(sections);
      DistinctMidsDistinctSenders(c, init);
      SlotsSnoc(c, sections);
      SendersAreSlots(c, init);
      forall k | 0 <= k < |Slots(c, init)| ensures Slots(c, init)[k] != Last(sections).mid {
        var s := Senders(c, init)[k];
        assert Mids(Senders(c, init))[k] == s.mid;
        var i :| 0 <= i < |init| && init[i] == s;
        assert sections[i].mid != sections[|sections| - 1].mid;
      }
    }
  }

  /** There are no more distinct local mids than local sources. */
  lemma {:induction false} DistinctBound(mids: seq<string>, keys: set<string>)
    requires Distinct(mids) && forall i | 0 <= i < |mids| :: mids[i] in keys
    ensures |mids| <= |keys|
  {
    if mids != [] {
      DistinctBound(Init(mids), keys - {Last(mids)});
    }
  }

  lemma {:induction false} LocalBound(c: Client, mids: seq<string>)
    requires Distinct(mids) && forall i | 0 <= i < |mids| :: LocalMid(c, mids[i])
    ensures |mids| <= LocalCount(c)
  {
    var a, v := c.localAudio.Keys, c.localVideo.Keys;
    DistinctBound(mids, a + v);
    assert a + v == a + (v - a) && |v - a| <= |v| by {
      assert v == (v - a) + (a * v);
    }
    assert |c.localAudio| == |a| && |c.localVideo| == |v|;
  }

  /** A well matched answer's slots match the senders. */
  lemma {:induction false} WellMatchedSlots(c: Client, offer: seq<MediaSection>, answer: seq<MediaSection>)
    requires WellMatched(c, offer, answer)
    ensures SlotsMatch(c, offer, answer)
  {
    SameShapeSameSlots(c, offer, answer);
    DistinctMidsDistinctSenders(c, offer);
    SendersAreSlots(c, offer);
    var senders, slots := Senders(c, offer), Slots(c, answer);
    assert forall i | 0 <= i < |slots| :: slots[i] == Mids(senders)[i] == senders[i].mid;
    LocalBound(c, slots);
  }

  /** A local mid missing from the answer shifts the rest: the second descriptor carries the first allocation. */
  lemma {:induction false} MissingSectionShifts(
    c: Client, offer: seq<MediaSection>, answer: seq<MediaSection>, allocations: seq<Allocation>)
    requires OwnTypes(c, offer) && Distinct(Slots(c, offer)) && |Slots(c, offer)| >= 2
    requires Slots(c, answer) == Slots(c, offer)[1..] && allocations != []
    ensures var descriptors := Descriptors(Allocate(c, answer, allocations, 0), offer);
            |descriptors| >= 2 && Carries(descriptors[1], allocations[0])
  {
    var senders, slots := Senders(c, offer), Slots(c, offer);
    SendersAreSlots(c, offer);
    assert forall i | 0 <= i < |slots| :: slots[i] == Mids(senders)[i] == senders[i].mid;
    LocalBound(c, slots);
    DescriptorAfterAck(c, offer, answer, allocations, 1);
    ShareAt(Slots(c, answer), allocations, 0, LocalCount(c), senders[1].mid, 0);
  }

  // ----- The SUBSCRIBE a run sends after an acknowledgement -----

  /** The input keeps the offer and the set and allocated ids of the local sources. */
  predicate KeepsOffer(c: Client, x: Input) {
    match x
    case SetLocalDescription(sdp) => sdp == c.sdp
    case UpdateLocalVideo(mid, _) => mid in c.localVideo
    case RemoveLocalVideo(mid) => mid !in c.localVideo
    case UpdateLocalAudio(mid, _) => mid in c.localAudio
    case RemoveLocalAudio(mid) => mid !in c.localAudio
    case LeaveAckFrame => false
    case SubscribeAckFrame(ack) => ack.sdpAnswer.None?
    case _ => true
  }

  predicate KeepsOfferThroughout(cfg: Config, before: seq<Input>, more: seq<Input>) {
    more == []
    || (KeepsOfferThroughout(cfg, before, Init(more))
        && KeepsOffer(Run(cfg, before + Init(more)).client, Last(more)))
  }

  predicate SameIds(m: map<string, StreamConfig>, n: map<string, StreamConfig>) {
    m.Keys == n.Keys && forall k | k in m :: m[k].streamId == n[k].streamId && m[k].groupId == n[k].groupId
  }

  predicate SameOffer(c: Client, d: Client) {
    c.sdp == d.sdp && SameIds(c.localAudio, d.localAudio) && SameIds(c.localVideo, d.localVideo)
  }

  lemma {:induction false} OfferKept(cfg: Config, log: Log, x: Input)
    requires KeepsOffer(log.client, x)
    ensures SameOffer(log.client, Step(cfg, log, x).client)
  {
    if x.UpdateLocalVideo? {
      assert Step(cfg, log, x).client.localVideo.Keys == log.client.localVideo.Keys;
    }
  }

  lemma {:induction false} OfferKeptThroughout(cfg: Config, before: seq<Input>, more: seq<Input>)
    requires KeepsOfferThroughout(cfg, before, more)
    ensures SameOffer(Run(cfg, before).client, Run(cfg, before + more).client)
    decreases |more|
  {
    if more == [] {
      assert before + more == before;
    } else {
      OfferKeptThroughout(cfg, before, Init(more));
      OfferKept(cfg, Run(cfg, before + Init(more)), Last(more));
      RunSnoc(cfg, before + Init(more), Last(more));
      assert before + Init(more) + [Last(more)] == before + more;
    }
  }

  lemma SameOfferSameAlignment(
    c: Client, d: Client, sections: seq<MediaSection>, allocations: seq<Allocation>)
    requires SameOffer(c, d)
    ensures Aligned(Descriptors(c, sections), allocations) <==> Aligned(Descriptors(d, sections), allocations)
  {
    SameKeysSameSenders(c, d, sections);
    DescriptorsFollowSenders(c, sections);
    DescriptorsFollowSenders(d, sections);
    forall k | 0 <= k < |Senders(c, sections)|
      ensures Descriptors(c, sections)[k].streamId == Descriptors(d, sections)[k].streamId
      ensures Descriptors(c, sections)[k].groupId == Descriptors(d, sections)[k].groupId
    {
    }
  }

  /** The SUBSCRIBE sent in a run after an acknowledgement and inputs that keep the offer. */
  ghost function SubscribeAfterAck(
    cfg: Config, before: seq<Input>, ack: SubscribeAck, between: seq<Input>): Subscription
  {
    BuildSubscription(cfg, Run(cfg, before + [SubscribeAckFrame(ack)] + between).client)
  }

  lemma {:induction false} AckedOffer(cfg: Config, before: seq<Input>, ack: SubscribeAck)
    requires ack.sdpAnswer.Some?
    ensures Run(cfg, before + [SubscribeAckFrame(ack)]).client
         == Allocate(Run(cfg, before).client, Sections(ack.sdpAnswer.value), ack.allocations, 0)
  {
    RunSnoc(cfg, before, SubscribeAckFrame(ack));
  }

  lemma {:induction false} SendUpdatesSends(cfg: Config, inputs: seq<Input>)
    requires Run(cfg, inputs).client.state == Connected
    ensures Run(cfg, inputs + [SendUpdates]).sent
         == Run(cfg, inputs).sent + [Subscribe(BuildSubscription(cfg, Run(cfg, inputs).client))]
  {
    RunSnoc(cfg, inputs, SendUpdates);
  }

  lemma {:induction false} SubscriptionAligned(
    cfg: Config, c: Client, answer: seq<MediaSection>, allocations: seq<Allocation>, after: Client, later: Client)
    requires after == Allocate(c, answer, allocations, 0) && SameOffer(after, later)
    ensures var offer, sub := Sections(c.sdp), BuildSubscription(cfg, later);
            && sub.sdpOffer == c.sdp
            && (if SendsVideo(offer) then
                  && (Aligned(sub.sendStreams, allocations) <==> AlignedAfterAck(c, offer, answer, allocations))
                  && |sub.sendStreams| == |Senders(c, offer)|
                  && (SlotsMatch(c, offer, answer) ==> Aligned(sub.sendStreams, allocations))
                else sub.duplex == Rx && sub.sendStreams == [])
  {
    var offer := Sections(c.sdp);
    AllocateOnlyLocal(c, answer, allocations, 0);
    SameOfferSameAlignment(after, later, offer, allocations);
    DescriptorsFollowSenders(later, offer);
    SameKeysSameSenders(c, later, offer);
    if SlotsMatch(c, offer, answer) {
      MatchAligns(c, offer, answer, allocations);
    }
  }

  /**
   * Alignment in runs. After any run, an acknowledgement with an answer and any inputs that keep the offer and leave
   * the client connected, the frame that `SendUpdates` puts on the wire is a SUBSCRIBE of the same offer. When a video
   * section sends, its send descriptors carry the allocations in place exactly when the acknowledgement aligned them,
   * so always when the answer's slots match; otherwise it has none.
   */
  lemma {:induction false} AckAlignsSubscribe(
    cfg: Config, before: seq<Input>, ack: SubscribeAck, between: seq<Input>)
    requires ack.sdpAnswer.Some?
    requires KeepsOfferThroughout(cfg, before + [SubscribeAckFrame(ack)], between)
    requires Run(cfg, before + [SubscribeAckFrame(ack)] + between).client.state == Connected
    ensures var c, prior := Run(cfg, before).client, before + [SubscribeAckFrame(ack)] + between;
            var offer, answer := Sections(c.sdp), Sections(ack.sdpAnswer.value);
            var sub := SubscribeAfterAck(cfg, before, ack, between);
            && Run(cfg, prior + [SendUpdates]).sent == Run(cfg, prior).sent + [Subscribe(sub)]
            && sub.sdpOffer == c.sdp
            && (if SendsVideo(offer) then
                  && (Aligned(sub.sendStreams, ack.allocations) <==> AlignedAfterAck(c, offer, answer, ack.allocations))
                  && |sub.sendStreams| == |Senders(c, offer)|
                  && (SlotsMatch(c, offer, answer) ==> Aligned(sub.sendStreams, ack.allocations))
                else sub.duplex == Rx && sub.sendStreams == [])
  {
    var c, acked := Run(cfg, before).client, before + [SubscribeAckFrame(ack)];
    AckedOffer(cfg, before, ack);
    OfferKeptThroughout(cfg, acked, between);
    SendUpdatesSends(cfg, acked + between);
    SubscriptionAligned(cfg, c, Sections(ack.sdpAnswer.value), ack.allocations, Run(cfg, acked).client,
                        Run(cfg, acked + between).client);
  }

  /** In particular when offer and answer are well matched. */
  lemma {:induction false} WellMatchedAckAligns(
    cfg: Config, before: seq<Input>, ack: SubscribeAck, between: seq<Input>)
    requires ack.sdpAnswer.Some?
    requires KeepsOfferThroughout(cfg, before + [SubscribeAckFrame(ack)], between)
    requires Run(cfg, before + [SubscribeAckFrame(ack)] + between).client.state == Connected
    requires var c := Run(cfg, before).client;
             WellMatched(c, Sections(c.sdp), Sections(ack.sdpAnswer.value)) && SendsVideo(Sections(c.sdp))
    ensures Aligned(SubscribeAfterAck(cfg, before, ack, between).sendStreams, ack.allocations)
  {
    var c := Run(cfg, before).client;
    WellMatchedSlots(c, Sections(c.sdp), Sections(ack.sdpAnswer.value));
    AckAlignsSubscribe(cfg, before, ack, between);
  }

  // ----- The run statement for every list of allocations -----

  /** Two clients that inputs keeping the offer treat alike. */
  predicate AlikeForOffer(c: Client, d: Client) {
    SameKeys(c, d) && c.sdp == d.sdp && (c.state == Connected <==> d.state == Connected)
  }

  lemma {:induction false} AlikeStep(cfg: Config, log: Log, other: Log, x: Input)
    requires AlikeForOffer(log.client, other.client) && KeepsOffer(log.client, x)
    ensures KeepsOffer(other.client, x)
    ensures AlikeForOffer(Step(cfg, log, x).client, Step(cfg, other, x).client)
  {
    OfferKept(cfg, log, x);
    OfferKept(cfg, other, x);
    SessionFields(cfg, log, x);
    SessionFields(cfg, other, x);
  }

  lemma {:induction false} AlikeThroughout(cfg: Config, one: seq<Input>, two: seq<Input>, more: seq<Input>)
    requires AlikeForOffer(Run(cfg, one).client, Run(cfg, two).client) && KeepsOfferThroughout(cfg, one, more)
    ensures KeepsOfferThroughout(cfg, two, more)
    ensures AlikeForOffer(Run(cfg, one + more).client, Run(cfg, two + more).client)
    decreases |more|
  {
    if more == [] {
      assert one + more == one && two + more == two;
    } else {
      var init, x := Init(more), Last(more);
      AlikeThroughout(cfg, one, two, init);
      AlikeStep(cfg, Run(cfg, one + init), Run(cfg, two + init), x);
      RunSnoc(cfg, one + init, x);
      RunSnoc(cfg, two + init, x);
      AppendAssociative(one, init, [x]);
      AppendAssociative(two, init, [x]);
      assert init + [x] == more;
    }
  }

  function Acked(before: seq<Input>, answer: string, allocations: seq<Allocation>): seq<Input> {
    before + [SubscribeAckFrame(SubscribeAck(Some(answer), allocations))]
  }

  /** The send descriptors of the SUBSCRIBE sent after an answer with these allocations. */
  ghost function StreamsAfter(
    cfg: Config, before: seq<Input>, answer: string, allocations: seq<Allocation>, between: seq<Input>)
    : seq<SendDescriptor>
  {
    SubscribeAfterAck(cfg, before, SubscribeAck(Some(answer), allocations), between).sendStreams
  }

  lemma {:induction false} StreamsAlignedIff(
    cfg: Config, before: seq<Input>, answer: string, allocations: seq<Allocation>, between: seq<Input>)
    requires KeepsOfferThroughout(cfg, Acked(before, answer, []), between)
    requires Run(cfg, Acked(before, answer, []) + between).client.state == Connected
    requires SendsVideo(Sections(Run(cfg, before).client.sdp))
    ensures var c := Run(cfg, before).client;
            && Run(cfg, Acked(before, answer, allocations) + between).client.state == Connected
            && (Aligned(StreamsAfter(cfg, before, answer, allocations, between), allocations)
                <==> AlignedAfterAck(c, Sections(c.sdp), Sections(answer), allocations))
  {
    var c, ack := Run(cfg, before).client, SubscribeAck(Some(answer), allocations);
    AckedOffer(cfg, before, SubscribeAck(Some(answer), []));
    AckedOffer(cfg, before, ack);
    AllocateOnlyLocal(c, Sections(answer), [], 0);
    AllocateOnlyLocal(c, Sections(answer), allocations, 0);
    AlikeThroughout(cfg, Acked(before, answer, []), Acked(before, answer, allocations), between);
    AckAlignsSubscribe(cfg, before, ack, between);
  }

  /**
   * The SUBSCRIBE a run sends after an answer, and after any inputs that keep the offer and leave the client connected,
   * carries the allocations in place whatever they are if and only if the answer's slots match the offer's senders.
   */
  lemma {:induction false} AnswerAlignsSubscribeIff(
    cfg: Config, before: seq<Input>, answer: string, between: seq<Input>)
    requires KeepsOfferThroughout(cfg, Acked(before, answer, []), between)
    requires Run(cfg, Acked(before, answer, []) + between).client.state == Connected
    requires SendsVideo(Sections(Run(cfg, before).client.sdp))
    ensures var c := Run(cfg, before).client;
            (forall allocations: seq<Allocation> ::
               Aligned(StreamsAfter(cfg, before, answer, allocations, between), allocations))
            <==> SlotsMatch(c, Sections(c.sdp), Sections(answer))
  {
    var c := Run(cfg, before).client;
    AlignmentIff(c, Sections(c.sdp), Sections(answer));
    forall allocations: seq<Allocation>
      ensures Aligned(StreamsAfter(cfg, before, answer, allocations, between), allocations)
              <==> AlignedAfterAck(c, Sections(c.sdp), Sections(answer), allocations)
    {
      StreamsAlignedIff(cfg, before, answer, allocations, between);
    }
  }
}
