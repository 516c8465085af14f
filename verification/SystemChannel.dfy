/** The client on top of the channel: what the far end of the connection sees. */
module SystemChannel {
  import opened Common
  import opened SocketModel
  import opened SocketReconnect
  import opened Transport
  import opened Channel
  import opened SignalingModel
  import opened SignalingWire

  /** Every frame serialises to at least one byte, as it does when its required fields are set. */
  ghost predicate AlwaysSerializes<F(!new)>(codec: Codec<F>) {
    forall f :: codec.serialize(f).Some? && codec.serialize(f).value != []
  }

  /** Any stretch of a word that is empty or starts with a JOIN is a word. */
  lemma {:induction false} StretchInLanguage(frames: seq<WireFrame>, from: nat, to: nat)
    requires InWireLanguage(frames) && from <= to <= |frames|
    ensures InWireLanguage(frames[from..to]) <==> from == to || frames[from].Join?
  {
    LanguageIsLocal(frames);
    LanguageIsLocal(frames[from..to]);
    var stretch := frames[from..to];
    forall i | 0 < i < |stretch| ensures stretch[i].Join? || !stretch[i - 1].Leave? {
      assert stretch[i] == frames[from + i] && stretch[i - 1] == frames[from + i - 1];
    }
  }

  /**
   * What the server sees, all connections one after the other. Over any run of a client whose frames go through
   * transport, queue and socket without a write error, and however the network fragments them, it is at any moment
   * handed a prefix of the frames the client sent, which is itself a word of the wire language; once the queue has
   * drained it is handed all of them. `NextConnectionIff` says what a single connection carries.
   */
  lemma {:induction false} FarEndSeesWireLanguage(
    cfg: Config, inputs: seq<Input>, codec: Codec<WireFrame>,
    sender: seq<SocketInput>, fragments: seq<seq<WsFrame>>, receiver: seq<SocketInput>)
    requires Inverse(codec) && AlwaysSerializes(codec)
    requires Submitted(sender) == FramedAll(SerializedAll(codec, Run(cfg, inputs).sent))
    requires SocketRun(OPENED, sender).errors == 0
    requires Carried(SocketRun(OPENED, sender).written, fragments, receiver)
    ensures var seen := UnderstoodAll(codec, SocketRun(OPENED, receiver).delivered);
            && seen <= Run(cfg, inputs).sent
            && InWireLanguage(seen)
            && (SocketRun(OPENED, sender).queue == [] ==> seen == Run(cfg, inputs).sent)
  {
    var sent := Run(cfg, inputs).sent;
    FramesDelivered(codec, sent, sender, fragments, receiver);
    WireLanguage(cfg, inputs);
    LanguageIsLocal(sent);
    StretchInLanguage(sent, 0, |SocketRun(OPENED, sender).written|);
    assert sent[0..|SocketRun(OPENED, sender).written|] == sent[..|SocketRun(OPENED, sender).written|];
  }

  // ----- One connection at a time -----

  lemma {:induction false} SentGrows(cfg: Config, inputs: seq<Input>, more: seq<Input>)
    ensures Run(cfg, inputs).sent <= Run(cfg, inputs + more).sent
  {
    if more == [] {
      assert inputs + more == inputs;
    } else {
      assert Init(inputs + more) == inputs + Init(more);
      SentGrows(cfg, inputs, Init(more));
      SendsAtMostOne(cfg, Run(cfg, inputs + Init(more)), Last(more));
    }
  }

  lemma {:induction false} JoinIsNext(cfg: Config, earlier: seq<Input>, later: seq<Input>)
    ensures Run(cfg, earlier).sent + [JoinFrame(cfg)] <= Run(cfg, earlier + [SignalingConnected] + later).sent
  {
    RunSnoc(cfg, earlier, SignalingConnected);
    SentGrows(cfg, earlier + [SignalingConnected], later);
  }

  /** The messages a client's frames are submitted as. */
  function SubmittedFor(codec: Codec<WireFrame>, frames: seq<WireFrame>): seq<Message>
    requires forall i | 0 <= i < |frames| :: codec.serialize(frames[i]).Some?
  {
    FramedAll(SerializedAll(codec, frames))
  }

  lemma SubmittedStretch(codec: Codec<WireFrame>, frames: seq<WireFrame>, from: nat, to: nat)
    requires AlwaysSerializes(codec) && from <= to <= |frames|
    ensures SubmittedFor(codec, frames)[from..to] == SubmittedFor(codec, frames[from..to])
  {
  }

  lemma {:induction false} WrittenFrames(
    codec: Codec<WireFrame>, frames: seq<WireFrame>, sender: seq<SocketInput>, from: nat)
    requires Inverse(codec) && AlwaysSerializes(codec)
    requires Submitted(sender) == SubmittedFor(codec, frames) && SocketRun(OPENED, sender).errors == 0
    requires from <= |SocketRun(OPENED, sender).written|
    ensures var written := SocketRun(OPENED, sender).written;
            && |written| <= |frames|
            && |written| + Waiting(sender) == |frames|
            && UnderstoodAll(codec, written[from..]) == frames[from..|written|]
  {
    WrittenCount(sender);
    var n := |SocketRun(OPENED, sender).written|;
    assert |Submitted(sender)| == |frames|;
    SubmittedStretch(codec, frames, from, n);
    assert SocketRun(OPENED, sender).written[from..] == Submitted(sender)[from..n];
    FramesUnderstood(codec, frames[from..n]);
  }

  /**
   * What the next connection carries. A client reconnects while `held` frames of its run so far are still queued: the
   * new connection gets those first, so what it carries is a word of the wire language if and only if it carries
   * nothing, nothing was held, or the oldest frame held is a JOIN; and it starts with its own JOIN if nothing was held.
   */
  lemma {:induction false} NextConnectionIff(
    cfg: Config, earlier: seq<Input>, later: seq<Input>, codec: Codec<WireFrame>,
    before: seq<SocketInput>, after: seq<SocketInput>)
    requires Inverse(codec) && AlwaysSerializes(codec)
    requires Submitted(before) == SubmittedFor(codec, Run(cfg, earlier).sent)
    requires Submitted(before + RECONNECT + after)
          == SubmittedFor(codec, Run(cfg, earlier + [SignalingConnected] + later).sent)
    requires SocketRun(OPENED, before + RECONNECT + after).errors == 0
    ensures var first := |SocketRun(OPENED, before).written|;
            var written := SocketRun(OPENED, before + RECONNECT + after).written;
            var sent := Run(cfg, earlier + [SignalingConnected] + later).sent;
            && first <= |written| <= |sent| && first <= |Run(cfg, earlier).sent|
            && var held, carried := Run(cfg, earlier).sent[first..], UnderstoodAll(codec, written[first..]);
               && |held| == Waiting(before)
               && carried == sent[first..|written|]
               && (InWireLanguage(carried) <==> carried == [] || held == [] || held[0].Join?)
               && (carried != [] ==> carried[0] == if held == [] then JoinFrame(cfg) else held[0])
  {
    var all := before + RECONNECT + after;
    assert before + (RECONNECT + after) == all;
    SubmittedGrows(before, RECONNECT + after);
    WrittenFrames(codec, Run(cfg, earlier).sent, before, 0);
    WrittenCount(before);
    WrittenCount(all);
    var first, n := |SocketRun(OPENED, before).written|, |SocketRun(OPENED, all).written|;
    var inputs := earlier + [SignalingConnected] + later;
    WrittenFrames(codec, Run(cfg, inputs).sent, all, first);
    JoinIsNext(cfg, earlier, later);
    WireLanguage(cfg, inputs);
    StretchInLanguage(Run(cfg, inputs).sent, first, n);
    assert (Run(cfg, earlier).sent + [JoinFrame(cfg)])[first] == Run(cfg, inputs).sent[first];
  }

  // ----- A stale LEAVE -----

  /** Connect, stop, and close before the LEAVE is acknowledged. */
  function StoppedEarly(): seq<Input> {
    [SignalingConnected] + [Stop] + [SignalingClosed]
  }

  lemma StopStep(cfg: Config, log: Log)
    requires log.client.state == Connected
    ensures Step(cfg, log, Stop).sent == log.sent + [Leave]
  {
  }

  lemma {:induction false} StopBeforeClose(cfg: Config)
    ensures Run(cfg, StoppedEarly()).sent == [JoinFrame(cfg), Leave]
  {
    RunSnoc(cfg, [], SignalingConnected);
    assert [] + [SignalingConnected] == [SignalingConnected];
    RunSnoc(cfg, [SignalingConnected], Stop);
    StopStep(cfg, Run(cfg, [SignalingConnected]));
    RunSnoc(cfg, [SignalingConnected] + [Stop], SignalingClosed);
  }

  lemma {:induction false} SubmittedOf(one: SocketInput, two: SocketInput, three: SocketInput)
    requires one.Submit? && two.Writeable? && three.Submit?
    ensures Submitted([one, two, three]) == [one.data, three.data]
  {
    assert Init([one, two, three]) == [one, two] && Init([one, two]) == [one] && Init([one]) == [];
    assert Submitted([one]) == [one.data];
    assert Submitted([one, two]) == [one.data] + [];
  }

  /** A JOIN written, a LEAVE still queued when the connection ends, and two writes on the next connection. */
  lemma {:induction false} WritesAcross(join: Message, leave: Message)
    ensures var before := [Submit(join), Writeable(1), Submit(leave)];
            var all := before + RECONNECT + [Submit(join), Writeable(1), Writeable(1)];
            && Submitted(before) == [join, leave] && SocketRun(OPENED, before).written == [join]
            && SocketRun(OPENED, all).written == [join, leave, join]
  {
    var one, two, three := Submit(join), Writeable(1), Submit(leave);
    var log1, log2 := SocketLog([join], [], [], [], [], 0), SocketLog([], [], [], [join], [join], 0);
    var log3 := SocketLog([leave], [], [], [join], [join], 0);
    SocketRunOne(OPENED, one);
    SocketRunAppend(OPENED, [one], [two]);
    SocketRunOne(log1, two);
    SocketRunAppend(OPENED, [one] + [two], [three]);
    SocketRunOne(log2, three);
    var before := [one, two, three];
    assert [one] + [two] + [three] == before;
    SubmittedOf(one, two, three);
    assert SocketRun(OPENED, before) == log3;
    ReconnectKeeps(before);
    SocketRunAppend(OPENED, before + RECONNECT, [one, two, two]);
    var log4 := log3.(queue := [leave, join]);
    var log5 := SocketLog([join], [], [], [join, leave], [join, leave], 0);
    SocketRunOne(log3, one);
    SocketRunAppend(log3, [one], [two]);
    SocketRunOne(log4, two);
    SocketRunAppend(log3, [one] + [two], [two]);
    SocketRunOne(log5, two);
    assert [one] + [two] + [two] == [one, two, two];
  }

  lemma {:induction false} SubmittedForTwo(codec: Codec<WireFrame>, f: WireFrame, g: WireFrame)
    requires AlwaysSerializes(codec)
    ensures SubmittedFor(codec, [f, g]) == SubmittedFor(codec, [f]) + SubmittedFor(codec, [g])
    ensures |SubmittedFor(codec, [f])| == |SubmittedFor(codec, [g])| == 1
  {
  }

  /** A LEAVE still queued when the connection closes goes out on the next connection, in front of its JOIN. */
  lemma {:induction false} StaleLeaveFirst(cfg: Config, codec: Codec<WireFrame>, join: Message, leave: Message)
    requires Inverse(codec) && AlwaysSerializes(codec)
    requires SubmittedFor(codec, [JoinFrame(cfg)]) == [join] && SubmittedFor(codec, [Leave]) == [leave]
    ensures var before := [Submit(join), Writeable(1), Submit(leave)];
            var all := before + RECONNECT + [Submit(join), Writeable(1), Writeable(1)];
            && Submitted(before) == SubmittedFor(codec, Run(cfg, StoppedEarly()).sent)
            && SocketRun(OPENED, before).written == [join]
            && SocketRun(OPENED, all).written == [join] + [leave, join]
            && UnderstoodAll(codec, [leave, join]) == [Leave, JoinFrame(cfg)]
  {
    StopBeforeClose(cfg);
    WritesAcross(join, leave);
    SubmittedForTwo(codec, JoinFrame(cfg), Leave);
    SubmittedForTwo(codec, Leave, JoinFrame(cfg));
    FramesUnderstood(codec, [Leave, JoinFrame(cfg)]);
    assert [join] + [leave, join] == [join, leave, join];
  }
}
