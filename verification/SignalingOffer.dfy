/** When the SUBSCRIBE of an offer says that the client sends video. */
module SignalingOffer {
  import opened Common
  import opened SdpText
  import opened Sdp
  import opened SdpMedia
  import opened SignalingModel

  predicate SendingLine(line: string) {
    match Classify(line)
    case DirectionLine(direction) => direction == SendOnly || direction == SendRecv
    case _ => false
  }

  /** Line `p` is a sending direction line where no audio m-line is in force. */
  predicate SendsAsVideo(lines: seq<string>, p: nat) {
    p < |lines| && SendingLine(lines[p]) && KindAfter(lines[..p]) == Video
  }

  lemma {:induction false} VideoSender(lines: seq<string>)
    ensures SendsVideo(SectionsOf(lines)) <==> exists p: nat :: SendsAsVideo(lines, p)
  {
    if lines != [] {
      var init, line, at := Init(lines), Last(lines), |lines| - 1;
      VideoSender(init);
      OneLine(init, line);
      assert lines == init + [line] && lines[..at] == init;
      assert forall p: nat | p < at :: lines[..p] == init[..p];
      assert forall p: nat :: SendsAsVideo(lines, p) <==> SendsAsVideo(init, p) || (p == at && SendsAsVideo(lines, at));
      assert SendsAsVideo(lines, at) <==> SendingLine(line) && KindAfter(init) == Video;
      var before, after := SectionsOf(init), SectionsOf(lines);
      assert forall i | 0 <= i < |before| :: after[i] == before[i];
      if SendsAsVideo(lines, at) {
        assert after[|before|].kind == Video && IsSending(after[|before|].direction);
      }
    }
  }

  lemma {:induction false} VideoUntilAudio(lines: seq<string>)
    requires forall i | 0 <= i < |lines| :: Classify(lines[i]) != KindLine(Video)
    ensures KindAfter(lines) == Video <==> NoKind(lines)
  {
    if lines != [] {
      VideoUntilAudio(Init(lines));
      assert Last(lines) == lines[|lines| - 1] && Init(lines) == lines[..|lines| - 1];
    }
  }

  // ----- By media descriptions -----

  predicate HasSending(lines: seq<string>) {
    exists i | 0 <= i < |lines| :: SendingLine(lines[i])
  }

  /** Description `k` has a sending direction line, and the last audio or video description up to it is video. */
  predicate SendsFrom(blocks: seq<seq<string>>, k: nat) {
    k < |blocks| && HasSending(blocks[k]) && KindOfLast(blocks[..k + 1]) == Video
  }

  lemma {:induction false} SessionSends(session: seq<string>)
    requires NoMedia(session)
    ensures SendsVideo(SectionsOf(session)) <==> HasSending(session)
  {
    VideoSender(session);
    forall p: nat | p < |session| ensures KindAfter(session[..p]) == Video {
      NoMediaNoKind(session);
      NoKindIsVideo(session[..p]);
    }
    if i :| 0 <= i < |session| && SendingLine(session[i]) {
      assert SendsAsVideo(session, i);
    }
  }

  lemma {:induction false} SendsVideoSnoc(sections: seq<MediaSection>, s: MediaSection)
    ensures SendsVideo(sections + [s]) <==> SendsVideo(sections) || (s.kind == Video && IsSending(s.direction))
  {
    var all := sections + [s];
    assert all[|sections|] == s && forall i | 0 <= i < |sections| :: all[i] == sections[i];
  }

  /** What the first lines of a description add. */
  lemma {:induction false} DescriptionSends(lines: seq<string>, block: seq<string>, p: nat)
    requires MediaBlock(block) && 0 < p <= |block|
    ensures SendsVideo(SectionsOf(lines + block[..p])) <==>
            SendsVideo(SectionsOf(lines)) || (HasSending(block[..p]) && KindAfter(lines + block[..p]) == Video)
  {
    var init, line := block[..p - 1], block[p - 1];
    PrefixSnoc(block, p - 1);
    AppendAssociative(lines, init, [line]);
    OneLine(lines + init, line);
    if p == 1 {
      assert lines + init == lines;
      NotDirection(block);
    } else {
      DescriptionSends(lines, block, p - 1);
      KindWithin(lines, block, p - 1);
      KindWithin(lines, block, p);
      assert HasSending(block[..p]) <==> HasSending(init) || SendingLine(line) by {
        assert block[..p][p - 1] == line && forall i | 0 <= i < p - 1 :: block[..p][i] == init[i];
      }
      if IsDirection(line) {
        var s := MediaSection(KindAfter(lines + init), MidAfter(lines + init), Classify(line).direction);
        SendsVideoSnoc(SectionsOf(lines + init), s);
      }
    }
  }

  lemma {:induction false} SendsFromSnoc(blocks: seq<seq<string>>)
    requires blocks != []
    ensures (exists k: nat :: SendsFrom(blocks, k))
            <==> (exists k: nat :: SendsFrom(Init(blocks), k)) || SendsFrom(blocks, |blocks| - 1)
  {
    var init := Init(blocks);
    forall k: nat | k < |init| ensures SendsFrom(blocks, k) <==> SendsFrom(init, k) {
      assert init[..k + 1] == blocks[..k + 1] && init[k] == blocks[k];
    }
  }

  lemma {:induction false} DescriptionsSend(session: seq<string>, blocks: seq<seq<string>>)
    requires NoMedia(session) && MediaBlocks(blocks)
    ensures SendsVideo(SectionsOf(session + Flatten(blocks))) <==>
            HasSending(session) || exists k: nat :: SendsFrom(blocks, k)
  {
    if blocks == [] {
      assert session + Flatten(blocks) == session;
      SessionSends(session);
    } else {
      var init, n, block := Init(blocks), |blocks| - 1, blocks[|blocks| - 1];
      DescriptionsSend(session, init);
      AppendAssociative(session, Flatten(init), block);
      assert session + Flatten(blocks) == session + Flatten(init) + block[..|block|];
      DescriptionSends(session + Flatten(init), block, |block|);
      KindAfterBlocks(session, blocks);
      assert blocks[..n + 1] == blocks && block[..|block|] == block;
      assert SendsFrom(blocks, n) <==> HasSending(block) && KindAfter(session + Flatten(blocks)) == Video;
      SendsFromSnoc(blocks);
    }
  }

  /**
   * A SUBSCRIBE is DUPLEX exactly when a sending direction line stands in the session part of its offer or in a
   * description whose type is video or, being of no type the parser knows, that comes after video or before any audio.
   */
  lemma {:induction false} DuplexIff(cfg: Config, c: Client, session: seq<string>, blocks: seq<seq<string>>)
    requires Tokens(c.sdp, CRLF) == session + Flatten(blocks) && NoMedia(session) && MediaBlocks(blocks)
    ensures BuildSubscription(cfg, c).duplex == Duplex
            <==> HasSending(session) || exists k: nat :: SendsFrom(blocks, k)
  {
    DescriptionsSend(session, blocks);
  }

  /**
   * The SUBSCRIBE of an offer without a video description says it sends video exactly when a sending direction line
   * stands before the first audio description, where section 6.7 of RFC 8866 allows one for the whole session.
   */
  lemma {:induction false} AudioOnlyDuplexIff(cfg: Config, c: Client)
    requires var lines := Tokens(c.sdp, CRLF);
             forall i | 0 <= i < |lines| :: Classify(lines[i]) != KindLine(Video)
    ensures var lines := Tokens(c.sdp, CRLF);
            BuildSubscription(cfg, c).duplex == Duplex
            <==> exists p: nat | p < |lines| :: SendingLine(lines[p]) && NoKind(lines[..p])
  {
    var lines := Tokens(c.sdp, CRLF);
    VideoSender(lines);
    forall p: nat | p < |lines|
      ensures SendsAsVideo(lines, p) <==> SendingLine(lines[p]) && NoKind(lines[..p])
    {
      VideoUntilAudio(lines[..p]);
    }
  }

  /** A receive-only offer with a data channel is sent as one that sends video. */
  lemma {:induction false} DataChannelOffersDuplex(cfg: Config, c: Client)
    requires c.sdp == SdpText.Join(DATA_CHANNEL_OFFER, CRLF)
    ensures BuildSubscription(cfg, c).duplex == Duplex
  {
    forall i | 0 <= i < |DATA_CHANNEL_OFFER| ensures Free(DATA_CHANNEL_OFFER[i], CRLF) {
      WithoutReturnIsFree(DATA_CHANNEL_OFFER[i]);
    }
    CrlfRoundTrip("", DATA_CHANNEL_OFFER);
    DataChannelIsVideo();
    assert SectionsOf(DATA_CHANNEL_OFFER)[1] == MediaSection(Video, "1", SendRecv);
  }
}
