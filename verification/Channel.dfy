/** From frames sent to frames received: framing, queueing, fragmentation, reassembly and unframing together. */
module Channel {
  import opened Common
  import opened SocketModel
  import opened Transport

  function FramedAll(payloads: seq<seq<byte>>): seq<Message> {
    seq(|payloads|, i requires 0 <= i < |payloads| => Framed(payloads[i]))
  }

  function UnframedAll(messages: seq<Message>): seq<seq<byte>> {
    if messages == [] then []
    else UnframedAll(Init(messages))
         + match Unframed(Last(messages)) case None => [] case Some(payload) => [payload]
  }

  function NonEmpty(payloads: seq<seq<byte>>): seq<seq<byte>> {
    if payloads == [] then []
    else NonEmpty(Init(payloads)) + if Last(payloads) == [] then [] else [Last(payloads)]
  }

  lemma {:induction false} UnframedFramed(payloads: seq<seq<byte>>)
    ensures UnframedAll(FramedAll(payloads)) == NonEmpty(payloads)
  {
    if payloads != [] {
      UnframedFramed(Init(payloads));
      assert Init(FramedAll(payloads)) == FramedAll(Init(payloads));
      assert Framed(Last(payloads))[1..] == Last(payloads);
    }
  }

  lemma {:induction false} NonEmptyLength(payloads: seq<seq<byte>>)
    ensures |NonEmpty(payloads)| <= |payloads|
    ensures NonEmpty(payloads) == payloads <==> [] !in payloads
  {
    if payloads != [] {
      NonEmptyLength(Init(payloads));
      assert payloads == Init(payloads) + [Last(payloads)];
    }
  }

  /** The messages one socket wrote reach another: each in fragments, one after the other, amid any other callbacks. */
  predicate Carried(written: seq<Message>, fragments: seq<seq<WsFrame>>, receiver: seq<SocketInput>) {
    && (forall i | 0 <= i < |fragments| :: ValidFragments(fragments[i]))
    && MessagesOf(fragments) == written
    && ReceivesOf(receiver) == AllArrivals(fragments)
  }

  lemma {:induction false} PieceArrivalsAreReceives(pieces: seq<seq<byte>>, isFinal: bool)
    ensures forall i | 0 <= i < |PieceArrivals(pieces, isFinal)| :: PieceArrivals(pieces, isFinal)[i].Receive?
  {
    if pieces != [] {
      PieceArrivalsAreReceives(pieces[1..], isFinal);
    }
  }

  /**
   * The channel theorem. Payloads are submitted behind their type byte, in any interleaving with the writes, none of
   * which fails; the written messages are carried in arbitrary fragments. At any moment, unframing the delivered
   * messages gives exactly the non-empty ones among the first payloads, as many as were written, in order; once the
   * queue has drained, that is all payloads if and only if none is empty.
   */
  lemma {:induction false} ChannelDelivers(
    payloads: seq<seq<byte>>, sender: seq<SocketInput>, fragments: seq<seq<WsFrame>>, receiver: seq<SocketInput>)
    requires Submitted(sender) == FramedAll(payloads) && SocketRun(OPENED, sender).errors == 0
    requires Carried(SocketRun(OPENED, sender).written, fragments, receiver)
    ensures var n := |SocketRun(OPENED, sender).written|;
            var delivered := SocketRun(OPENED, receiver).delivered;
            && n <= |payloads|
            && delivered == FramedAll(payloads[..n])
            && UnframedAll(delivered) == NonEmpty(payloads[..n])
            && (SocketRun(OPENED, sender).queue == [] ==>
                  n == |payloads| && (UnframedAll(delivered) == payloads <==> [] !in payloads))
  {
    WrittenPrefix(sender);
    OnlyReceivesDeliver(receiver);
    MessagesArrive(OPENED, fragments);
    assert [] + MessagesOf(fragments) == MessagesOf(fragments);
    var n := |SocketRun(OPENED, sender).written|;
    assert FramedAll(payloads)[..n] == FramedAll(payloads[..n]);
    UnframedFramed(payloads[..n]);
    NonEmptyLength(payloads);
    if n == |payloads| {
      assert payloads[..n] == payloads;
    }
  }

  // ----- Frames -----

  /** The payloads `SendSignalFrame` submits for a list of frames, all of which serialise. */
  function SerializedAll<F>(codec: Codec<F>, frames: seq<F>): seq<seq<byte>>
    requires forall i | 0 <= i < |frames| :: codec.serialize(frames[i]).Some?
  {
    seq(|frames|, i requires 0 <= i < |frames| => codec.serialize(frames[i]).value)
  }

  /** What `OnWebsocketBinaryReceived` hands on for a list of messages. */
  function UnderstoodAll<F>(codec: Codec<F>, messages: seq<Message>): seq<F> {
    if messages == [] then []
    else UnderstoodAll(codec, Init(messages))
         + match Understood(codec, Last(messages)) case None => [] case Some(frame) => [frame]
  }

  lemma {:induction false} FramesUnderstood<F(!new)>(codec: Codec<F>, frames: seq<F>)
    requires Inverse(codec)
    requires forall i | 0 <= i < |frames| :: codec.serialize(frames[i]).Some? && codec.serialize(frames[i]).value != []
    ensures UnderstoodAll(codec, FramedAll(SerializedAll(codec, frames))) == frames
  {
    if frames != [] {
      var init := Init(frames);
      FramesUnderstood(codec, init);
      assert Init(FramedAll(SerializedAll(codec, frames))) == FramedAll(SerializedAll(codec, init));
      var f := Last(frames);
      var payload := codec.serialize(f).value;
      assert Framed(payload)[1..] == payload;
      assert Last(FramedAll(SerializedAll(codec, frames))) == Framed(payload);
      assert frames == init + [f];
    }
  }

  /**
   * With an inverse codec whose frames are never empty, the receiver is at any moment handed exactly the first frames
   * sent, as many as were written, in order; all of them once the queue has drained.
   */
  lemma {:induction false} FramesDelivered<F(!new)>(
    codec: Codec<F>, frames: seq<F>, sender: seq<SocketInput>, fragments: seq<seq<WsFrame>>, receiver: seq<SocketInput>)
    requires Inverse(codec)
    requires forall i | 0 <= i < |frames| :: codec.serialize(frames[i]).Some? && codec.serialize(frames[i]).value != []
    requires Submitted(sender) == FramedAll(SerializedAll(codec, frames)) && SocketRun(OPENED, sender).errors == 0
    requires Carried(SocketRun(OPENED, sender).written, fragments, receiver)
    ensures var n := |SocketRun(OPENED, sender).written|;
            && n <= |frames|
            && UnderstoodAll(codec, SocketRun(OPENED, receiver).delivered) == frames[..n]
            && (SocketRun(OPENED, sender).queue == [] ==>
                UnderstoodAll(codec, SocketRun(OPENED, receiver).delivered) == frames)
  {
    var payloads := SerializedAll(codec, frames);
    ChannelDelivers(payloads, sender, fragments, receiver);
    var n := |SocketRun(OPENED, sender).written|;
    assert payloads[..n] == SerializedAll(codec, frames[..n]);
    FramesUnderstood(codec, frames[..n]);
  }
}
