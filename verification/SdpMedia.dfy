/** How the parsed sections relate to the media descriptions of a session description. */
module SdpMedia {
  import opened Common
  import opened SdpText
  import opened Sdp

  // ----- Media descriptions -----

  const MEDIA: string := "m="

  /** Any m-line starts a media description (section 5.14 of RFC 8866), whether the parser knows its type or not. */
  predicate IsMediaLine(line: string) {
    StartsWith(line, MEDIA)
  }

  predicate NoMedia(lines: seq<string>) {
    forall i | 0 <= i < |lines| :: !IsMediaLine(lines[i])
  }

  /** An m-line and the lines up to the next one. */
  predicate MediaBlock(block: seq<string>) {
    block != [] && IsMediaLine(block[0]) && NoMedia(block[1..])
  }

  predicate MediaBlocks(blocks: seq<seq<string>>) {
    forall k | 0 <= k < |blocks| :: MediaBlock(blocks[k])
  }

  /** A description of audio or video, the types the parser knows. */
  predicate Recognised(block: seq<string>) {
    block != [] && Classify(block[0]).KindLine?
  }

  function MediaCount(blocks: seq<seq<string>>): nat {
    if blocks == [] then 0 else MediaCount(Init(blocks)) + if Recognised(Last(blocks)) then 1 else 0
  }

  /** The type of the last audio or video description; video if there is none. */
  function KindOfLast(blocks: seq<seq<string>>): MediaType {
    if blocks == [] then Video
    else if Recognised(Last(blocks)) then Classify(Last(blocks)[0]).kind
    else KindOfLast(Init(blocks))
  }

  lemma {:induction false} KindLinesAreMedia(line: string)
    ensures Classify(line).KindLine? ==> IsMediaLine(line)
  {
    assert AUDIO[..2] == VIDEO[..2] == MEDIA;
    if Classify(line).KindLine? {
      assert line[..2] == (line[..|AUDIO|])[..2];
    }
  }

  lemma {:induction false} NoMediaNoKind(lines: seq<string>)
    requires NoMedia(lines)
    ensures NoKind(lines)
  {
    forall i | 0 <= i < |lines| ensures !Classify(lines[i]).KindLine? {
      KindLinesAreMedia(lines[i]);
    }
  }

  /** Every session description is a session part followed by media descriptions. */
  lemma {:induction false} SplitsIntoBlocks(lines: seq<string>) returns (session: seq<string>, blocks: seq<seq<string>>)
    ensures lines == session + Flatten(blocks) && NoMedia(session) && MediaBlocks(blocks)
  {
    if lines == [] {
      session, blocks := [], [];
    } else {
      var line := Last(lines);
      session, blocks := SplitsIntoBlocks(Init(lines));
      assert lines == Init(lines) + [line];
      if IsMediaLine(line) {
        NewBlock(session, blocks, line);
        blocks := blocks + [[line]];
      } else if blocks == [] {
        assert session + Flatten(blocks) == session && session + [line] + Flatten(blocks) == session + [line];
        session := session + [line];
      } else {
        ExtendLastBlock(session, blocks, line);
        blocks := Init(blocks) + [Last(blocks) + [line]];
      }
    }
  }

  lemma {:induction false} NewBlock(session: seq<string>, blocks: seq<seq<string>>, line: string)
    requires MediaBlocks(blocks) && IsMediaLine(line)
    ensures MediaBlocks(blocks + [[line]])
    ensures session + Flatten(blocks + [[line]]) == session + Flatten(blocks) + [line]
  {
    assert Init(blocks + [[line]]) == blocks;
    AppendAssociative(session, Flatten(blocks), [line]);
  }

  lemma {:induction false} ExtendLastBlock(session: seq<string>, blocks: seq<seq<string>>, line: string)
    requires blocks != [] && MediaBlocks(blocks) && !IsMediaLine(line)
    ensures var extended := Init(blocks) + [Last(blocks) + [line]];
            MediaBlocks(extended) && session + Flatten(extended) == session + Flatten(blocks) + [line]
  {
    var init, last := Init(blocks), Last(blocks);
    assert MediaBlock(blocks[|blocks| - 1]);
    assert (last + [line])[1..] == last[1..] + [line];
    assert Init(init + [last + [line]]) == init;
    AppendAssociative(Flatten(init), last, [line]);
    AppendAssociative(session, Flatten(blocks), [line]);
  }

  lemma {:induction false} DirectionCountAppend(a: seq<string>, b: seq<string>)
    ensures DirectionCount(a + b) == DirectionCount(a) + DirectionCount(b)
  {
    if b == [] {
      assert a + b == a;
    } else {
      assert Init(a + b) == a + Init(b);
      DirectionCountAppend(a, Init(b));
    }
  }

  // ----- The sections of one description -----

  /** Within a description the type in force is its own, or stays as it was if the parser does not know its type. */
  lemma {:induction false} KindWithin(lines: seq<string>, block: seq<string>, p: nat)
    requires MediaBlock(block) && 0 < p <= |block|
    ensures KindAfter(lines + block[..p]) == if Recognised(block) then Classify(block[0]).kind else KindAfter(lines)
  {
    PrefixSnoc(block, p - 1);
    AppendAssociative(lines, block[..p - 1], [block[p - 1]]);
    OneLine(lines + block[..p - 1], block[p - 1]);
    if p == 1 {
      assert lines + block[..0] == lines;
    } else {
      KindWithin(lines, block, p - 1);
      assert block[p - 1] == block[1..][p - 2];
      KindLinesAreMedia(block[p - 1]);
    }
  }

  lemma {:induction false} KindAfterBlocks(session: seq<string>, blocks: seq<seq<string>>)
    requires NoMedia(session) && MediaBlocks(blocks)
    ensures KindAfter(session + Flatten(blocks)) == KindOfLast(blocks)
  {
    if blocks == [] {
      assert session + Flatten(blocks) == session;
      NoMediaNoKind(session);
      NoKindIsVideo(session);
    } else {
      var init, last := Init(blocks), blocks[|blocks| - 1];
      KindAfterBlocks(session, init);
      AppendAssociative(session, Flatten(init), last);
      assert last[..|last|] == last;
      KindWithin(session + Flatten(init), last, |last|);
    }
  }

  predicate HasMid(lines: seq<string>) {
    exists i | 0 <= i < |lines| :: Classify(lines[i]).MidLine?
  }

  lemma {:induction false} MidWithin(lines: seq<string>, more: seq<string>)
    ensures MidAfter(lines + more) == if HasMid(more) then MidAfter(more) else MidAfter(lines)
  {
    if more == [] {
      assert lines + more == lines;
    } else {
      var init, line := Init(more), Last(more);
      assert more == init + [line] && line == more[|more| - 1];
      AppendAssociative(lines, init, [line]);
      OneLine(lines + init, line);
      if !Classify(line).MidLine? {
        MidWithin(lines, init);
        assert forall i | 0 <= i < |more| - 1 :: more[i] == init[i];
      }
    }
  }

  lemma {:induction false} BlocksAround(session: seq<string>, blocks: seq<seq<string>>, k: nat)
    requires k < |blocks|
    ensures session + Flatten(blocks[..k + 1]) == session + Flatten(blocks[..k]) + blocks[k]
    ensures session + Flatten(blocks) == session + Flatten(blocks[..k]) + blocks[k] + Flatten(blocks[k + 1..])
  {
    assert Init(blocks[..k + 1]) == blocks[..k];
    AppendAssociative(session, Flatten(blocks[..k]), blocks[k]);
    FlattenAppend(blocks[..k + 1], blocks[k + 1..]);
    assert blocks[..k + 1] + blocks[k + 1..] == blocks;
    AppendAssociative(session, Flatten(blocks[..k + 1]), Flatten(blocks[k + 1..]));
  }

  /** The lines up to line `p` of description `k`. */
  lemma {:induction false} UpToLine(session: seq<string>, blocks: seq<seq<string>>, k: nat, p: nat)
    requires k < |blocks| && p < |blocks[k]|
    ensures session + Flatten(blocks[..k]) + blocks[k][..p] + [blocks[k][p]] <= session + Flatten(blocks)
  {
    BlocksAround(session, blocks, k);
    PrefixSnoc(blocks[k], p);
    AppendAssociative(session + Flatten(blocks[..k]), blocks[k][..p], [blocks[k][p]]);
    assert blocks[k][..p + 1] <= blocks[k];
  }

  /** The type in force behind the m-line of description `k`. */
  lemma {:induction false} KindInBlock(session: seq<string>, blocks: seq<seq<string>>, k: nat, p: nat)
    requires NoMedia(session) && MediaBlocks(blocks) && k < |blocks| && 0 < p <= |blocks[k]|
    ensures KindAfter(session + Flatten(blocks[..k]) + blocks[k][..p]) == KindOfLast(blocks[..k + 1])
  {
    KindWithin(session + Flatten(blocks[..k]), blocks[k], p);
    KindAfterBlocks(session, blocks[..k]);
    PrefixSnoc(blocks, k);
  }

  lemma {:induction false} SectionAfter(lines: seq<string>, prefix: seq<string>, line: string)
    requires prefix + [line] <= lines && IsDirection(line)
    ensures DirectionCount(prefix) < |SectionsOf(lines)|
    ensures SectionsOf(lines)[DirectionCount(prefix)]
         == MediaSection(KindAfter(prefix), MidAfter(prefix), GetDirection(line))
  {
    assert lines[|prefix|] == (prefix + [line])[|prefix|] == line;
    assert lines[..|prefix|] == prefix;
    SectionOfLine(lines, |prefix|);
  }

  /**
   * The section of a direction line in any description, known to the parser or not: it has the type of the last audio
   * or video description up to there, and the description's own mid if that stands in front of the line, else the mid
   * in force before the description.
   */
  lemma {:induction false} SectionOfBlockLine(session: seq<string>, blocks: seq<seq<string>>, k: nat, p: nat)
    requires NoMedia(session) && MediaBlocks(blocks) && k < |blocks| && p < |blocks[k]| && IsDirection(blocks[k][p])
    ensures var sections, before := SectionsOf(session + Flatten(blocks)), session + Flatten(blocks[..k]);
            var own, rank := blocks[k][..p], DirectionCount(before) + DirectionCount(blocks[k][..p]);
            rank < |sections|
            && sections[rank] == MediaSection(
                 KindOfLast(blocks[..k + 1]),
                 if HasMid(own) then MidAfter(own) else MidAfter(before),
                 GetDirection(blocks[k][p]))
  {
    var before, own := session + Flatten(blocks[..k]), blocks[k][..p];
    NotDirection(blocks[k]);
    UpToLine(session, blocks, k, p);
    SectionAfter(session + Flatten(blocks), before + own, blocks[k][p]);
    DirectionCountAppend(before, own);
    MidWithin(before, own);
    KindInBlock(session, blocks, k, p);
  }

  /** The m-line itself is no direction line. */
  lemma {:induction false} NotDirection(block: seq<string>)
    requires MediaBlock(block)
    ensures !IsDirection(block[0])
  {
    assert block[0][..|MEDIA|] == MEDIA && block[0][0] == 'm';
    assert REC_ONLY[0] == SEND_ONLY[0] == INACTIVE[0] == SEND_RECV[0] == 'a';
  }

  // ----- When the sections are the audio and video descriptions -----

  /** There are as many sections as audio and video descriptions after each description, and none before the first. */
  predicate OneSectionPerMedia(session: seq<string>, blocks: seq<seq<string>>) {
    forall n | 0 <= n <= |blocks| :: |SectionsOf(session + Flatten(blocks[..n]))| == MediaCount(blocks[..n])
  }

  /** One direction line in a description of audio or video, none in any other. */
  predicate OneDirection(block: seq<string>) {
    DirectionCount(block) == if Recognised(block) then 1 else 0
  }

  lemma {:induction false} OneMoreBlock(session: seq<string>, blocks: seq<seq<string>>, n: nat)
    requires n < |blocks|
    ensures |SectionsOf(session + Flatten(blocks[..n + 1]))|
         == |SectionsOf(session + Flatten(blocks[..n]))| + DirectionCount(blocks[n])
    ensures MediaCount(blocks[..n + 1]) == MediaCount(blocks[..n]) + if Recognised(blocks[n]) then 1 else 0
  {
    PrefixSnoc(blocks, n);
    AppendAssociative(session, Flatten(blocks[..n]), blocks[n]);
    DirectionCountAppend(session + Flatten(blocks[..n]), blocks[n]);
    SectionCount(session + Flatten(blocks[..n]));
    SectionCount(session + Flatten(blocks[..n + 1]));
  }

  /**
   * The sections are exactly the audio and video descriptions, one each, if and only if no direction line stands before
   * the first description or in one of another type, and exactly one in each of audio or video.
   */
  lemma {:induction false} SectionsAreMediaIff(session: seq<string>, blocks: seq<seq<string>>)
    ensures OneSectionPerMedia(session, blocks) <==>
            DirectionCount(session) == 0 && forall k | 0 <= k < |blocks| :: OneDirection(blocks[k])
  {
    assert session + Flatten(blocks[..0]) == session;
    SectionCount(session);
    if OneSectionPerMedia(session, blocks) {
      forall k | 0 <= k < |blocks| ensures OneDirection(blocks[k]) {
        OneMoreBlock(session, blocks, k);
      }
    } else if DirectionCount(session) == 0 && forall k | 0 <= k < |blocks| :: OneDirection(blocks[k]) {
      forall n | 0 <= n <= |blocks| ensures |SectionsOf(session + Flatten(blocks[..n]))| == MediaCount(blocks[..n]) {
        CountBlocks(session, blocks, n);
      }
    }
  }

  lemma {:induction false} CountBlocks(session: seq<string>, blocks: seq<seq<string>>, n: nat)
    requires DirectionCount(session) == 0 && forall k | 0 <= k < |blocks| :: OneDirection(blocks[k])
    requires n <= |blocks|
    ensures |SectionsOf(session + Flatten(blocks[..n]))| == MediaCount(blocks[..n])
  {
    if n == 0 {
      assert session + Flatten(blocks[..0]) == session;
      SectionCount(session);
    } else {
      CountBlocks(session, blocks, n - 1);
      OneMoreBlock(session, blocks, n - 1);
    }
  }

  lemma {:induction false} FirstDirection(block: seq<string>, p: nat)
    requires DirectionCount(block) == 1 && p < |block| && IsDirection(block[p])
    ensures DirectionCount(block[..p]) == 0
  {
    SectionOfLine(block, p);
  }

  /** Then the sections before a description are as many as the audio and video descriptions before it. */
  lemma {:induction false} MediaRank(session: seq<string>, blocks: seq<seq<string>>, k: nat, p: nat)
    requires OneSectionPerMedia(session, blocks)
    requires k < |blocks| && Recognised(blocks[k]) && p < |blocks[k]| && IsDirection(blocks[k][p])
    ensures |SectionsOf(session + Flatten(blocks))| == MediaCount(blocks)
    ensures DirectionCount(session + Flatten(blocks[..k])) + DirectionCount(blocks[k][..p]) == MediaCount(blocks[..k])
  {
    SectionsAreMediaIff(session, blocks);
    assert blocks[..|blocks|] == blocks && OneDirection(blocks[k]);
    assert |SectionsOf(session + Flatten(blocks[..k]))| == MediaCount(blocks[..k]);
    FirstDirection(blocks[k], p);
    SectionCount(session + Flatten(blocks[..k]));
  }

  /**
   * And then the section of an audio or video description stands at the description's rank among those and is of its
   * type. Line `q` being the description's only mid line, the section has its mid exactly when that line comes before
   * the direction line or the mid was in force already.
   */
  lemma {:induction false} SectionOfMedia(session: seq<string>, blocks: seq<seq<string>>, k: nat, p: nat, q: nat)
    requires NoMedia(session) && MediaBlocks(blocks) && OneSectionPerMedia(session, blocks)
    requires k < |blocks| && Recognised(blocks[k]) && p < |blocks[k]| && IsDirection(blocks[k][p])
    ensures var sections, rank := SectionsOf(session + Flatten(blocks)), MediaCount(blocks[..k]);
            && |sections| == MediaCount(blocks) && rank < |sections|
            && sections[rank].kind == Classify(blocks[k][0]).kind
            && sections[rank].direction == GetDirection(blocks[k][p])
            && (q < |blocks[k]| && (forall i | 0 <= i < |blocks[k]| :: Classify(blocks[k][i]).MidLine? <==> i == q) ==>
                  var mid := Classify(blocks[k][q]).mid;
                  (sections[rank].mid == mid <==> q < p || MidAfter(session + Flatten(blocks[..k])) == mid))
  {
    MediaRank(session, blocks, k, p);
    SectionOfBlockLine(session, blocks, k, p);
    PrefixSnoc(blocks, k);
    OnlyMid(blocks[k], p, q);
  }

  /** A block's only mid line is the one in force after it. */
  lemma {:induction false} OnlyMid(block: seq<string>, p: nat, q: nat)
    requires p < |block|
    ensures q < |block| && (forall i | 0 <= i < |block| :: Classify(block[i]).MidLine? <==> i == q) && p != q ==>
              (HasMid(block[..p]) <==> q < p)
              && (q < p ==> MidAfter(block[..p]) == Classify(block[q]).mid)
  {
    if q < p && forall i | 0 <= i < |block| :: Classify(block[i]).MidLine? <==> i == q {
      assert block[..p][q] == block[q];
      LatestAnnouncement(block[..p], q);
    }
  }

  // ----- A data channel -----

  /** A receive-only video description and a data channel with a direction line of its own. */
  const DATA_CHANNEL_OFFER: seq<string> :=
    [VIDEO + " 9", MID + "0", REC_ONLY, "m=application 9", MID + "1", SEND_RECV]

  lemma {:induction false} ApplicationIsIgnored(line: string)
    requires |line| > 3 && line[..4] == "m=ap"
    ensures IsMediaLine(line) && Classify(line).OtherLine?
  {
    assert line[..2] == line[..4][..2] && line[0] == 'm' && line[2] == 'a' && line[3] == 'p';
    assert AUDIO[3] == 'u' && VIDEO[2] == 'v';
    assert MID[0] == REC_ONLY[0] == SEND_ONLY[0] == INACTIVE[0] == SEND_RECV[0] == 'a';
  }

  /** A media line of any kind, a mid line and a direction line add one section, of the type then in force. */
  lemma {:induction false} ThreeLines(
    lines: seq<string>, first: string, second: string, third: string, mid: string, direction: MediaDirection)
    requires Classify(first).KindLine? || Classify(first).OtherLine?
    requires Classify(second) == MidLine(mid) && Classify(third) == DirectionLine(direction)
    ensures var kind, all := KindAfter(lines + [first]), lines + [first] + [second] + [third];
            KindAfter(all) == kind && SectionsOf(all) == SectionsOf(lines) + [MediaSection(kind, mid, direction)]
  {
    OneLine(lines, first);
    OneLine(lines + [first], second);
    OneLine(lines + [first] + [second], third);
    assert SectionsOf(lines) + [] == SectionsOf(lines);
  }

  lemma {:induction false} TwoDescriptions(
    lines: seq<string>, video: string, one: string, receiving: string, other: string, two: string, sending: string)
    requires lines == [] + [video] + [one] + [receiving] + [other] + [two] + [sending]
    requires Classify(video) == KindLine(Video) && Classify(other) == OtherLine
    requires Classify(one) == MidLine("0") && Classify(receiving) == DirectionLine(RecvOnly)
    requires Classify(two) == MidLine("1") && Classify(sending) == DirectionLine(SendRecv)
    ensures SectionsOf(lines) == [MediaSection(Video, "0", RecvOnly), MediaSection(Video, "1", SendRecv)]
  {
    var first: seq<string> := [] + [video] + [one] + [receiving];
    OneLine([], video);
    ThreeLines([], video, one, receiving, "0", RecvOnly);
    OneLine(first, other);
    ThreeLines(first, other, two, sending, "1", SendRecv);
  }

  /** The data channel becomes a second, sending video section, although each description has one direction line. */
  lemma {:induction false} DataChannelIsVideo()
    ensures SectionsOf(DATA_CHANNEL_OFFER) == [MediaSection(Video, "0", RecvOnly), MediaSection(Video, "1", SendRecv)]
  {
    PrintedLines(Video, " 9", "0", RecvOnly);
    PrintedLines(Video, " 9", "1", SendRecv);
    ApplicationIsIgnored("m=application 9");
    TwoDescriptions(DATA_CHANNEL_OFFER, VIDEO + " 9", MID + "0", REC_ONLY, "m=application 9", MID + "1", SEND_RECV);
  }
}
