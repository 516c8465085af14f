/** The receive buffer and write queue of `LibwebsocketsWebsocket`, as a machine over callback reasons and calls. */
module SocketModel {
  import opened Common

  type Message = seq<byte>

  datatype SocketInput =
    /** A piece of the current websocket frame arrived; `remaining` bytes of that frame are still to come. */
    | Receive(data: seq<byte>, remaining: nat, isFinal: bool)
    /** The socket accepts data; `bytesWritten` is what the write returns if one is made. */
    | Writeable(bytesWritten: int)
    | Submit(data: Message)
    /** Connection established, closed by the peer, or closed: neither buffer nor queue is touched. */
    | ConnectionChange

  datatype SocketLog = SocketLog(
    queue: seq<Message>, buffer: seq<byte>,
    delivered: seq<Message>, popped: seq<Message>, written: seq<Message>, errors: nat)

  const OPENED: SocketLog := SocketLog([], [], [], [], [], 0)

  function SocketStep(log: SocketLog, x: SocketInput): SocketLog {
    match x
    case Receive(data, remaining, isFinal) =>
      if remaining == 0 && isFinal
      then log.(delivered := log.delivered + [log.buffer + data], buffer := [])
      else log.(buffer := log.buffer + data)
    case Writeable(bytesWritten) =>
      if log.queue == [] then log
      else
        var sent := log.(popped := log.popped + [log.queue[0]], queue := log.queue[1..]);
        if bytesWritten == -1 then sent.(errors := log.errors + 1)
        else sent.(written := log.written + [log.queue[0]])
    case Submit(data) => log.(queue := log.queue + [data])
    case ConnectionChange => log
  }

  function SocketRun(start: SocketLog, inputs: seq<SocketInput>): SocketLog {
    if inputs == [] then start else SocketStep(SocketRun(start, Init(inputs)), Last(inputs))
  }

  lemma {:induction false} SocketRunAppend(start: SocketLog, a: seq<SocketInput>, b: seq<SocketInput>)
    ensures SocketRun(start, a + b) == SocketRun(SocketRun(start, a), b)
  {
    if b == [] {
      assert a + b == a;
    } else {
      assert Init(a + b) == a + Init(b);
      SocketRunAppend(start, a, Init(b));
    }
  }

  // ----- Conservation -----

  function BytesReceived(inputs: seq<SocketInput>): seq<byte> {
    if inputs == [] then []
    else BytesReceived(Init(inputs)) + if Last(inputs).Receive? then Last(inputs).data else []
  }

  function Submitted(inputs: seq<SocketInput>): seq<Message> {
    if inputs == [] then []
    else Submitted(Init(inputs)) + if Last(inputs).Submit? then [Last(inputs).data] else []
  }

  /** `part` is `whole` with `missing` elements left out. */
  predicate LeavesOut<T(==)>(part: seq<T>, whole: seq<T>, missing: nat) {
    if whole == [] then part == [] && missing == 0
    else
      || (part != [] && Last(part) == Last(whole) && LeavesOut(Init(part), Init(whole), missing))
      || (missing > 0 && LeavesOut(part, Init(whole), missing - 1))
  }

  /**
   * No byte and no message is lost, invented or reordered. After any callbacks, the delivered messages and the buffer
   * are all bytes received; the popped messages and the queue are all messages submitted; and what was written is what
   * was popped without one message per write error.
   */
  lemma {:induction false} Conservation(inputs: seq<SocketInput>)
    ensures var log := SocketRun(OPENED, inputs);
            && Flatten(log.delivered) + log.buffer == BytesReceived(inputs)
            && log.popped + log.queue == Submitted(inputs)
            && LeavesOut(log.written, log.popped, log.errors)
  {
    if inputs != [] {
      Conservation(Init(inputs));
      var log, x := SocketRun(OPENED, Init(inputs)), Last(inputs);
      var after := SocketStep(log, x);
      match x
      case Receive(data, remaining, isFinal) =>
        if remaining == 0 && isFinal {
          assert Init(after.delivered) == log.delivered;
          AppendAssociative(Flatten(log.delivered), log.buffer, data);
        } else {
          AppendAssociative(Flatten(log.delivered), log.buffer, data);
        }
      case Writeable(bytesWritten) =>
        if log.queue != [] {
          var m := log.queue[0];
          assert [m] + log.queue[1..] == log.queue;
          AppendAssociative(log.popped, [m], log.queue[1..]);
          assert Init(log.popped + [m]) == log.popped;
          assert Init(log.written + [m]) == log.written;
        }
      case Submit(data) => AppendAssociative(log.popped, log.queue, [data]);
      case ConnectionChange =>
    }
  }

  lemma {:induction false} NothingLeftOut<T>(part: seq<T>, whole: seq<T>)
    requires LeavesOut(part, whole, 0)
    ensures part == whole
  {
    if whole != [] {
      NothingLeftOut(Init(part), Init(whole));
      assert part == Init(part) + [Last(part)] && whole == Init(whole) + [Last(whole)];
    }
  }

  /**
   * Without a write error, what was written is a prefix of what was submitted, all of it once the queue has drained.
   */
  lemma {:induction false} WrittenPrefix(inputs: seq<SocketInput>)
    ensures var log := SocketRun(OPENED, inputs);
            log.errors == 0 ==>
              && |log.written| <= |Submitted(inputs)|
              && log.written == Submitted(inputs)[..|log.written|]
              && (log.queue == [] <==> log.written == Submitted(inputs))
  {
    Conservation(inputs);
    var log := SocketRun(OPENED, inputs);
    if log.errors == 0 {
      NothingLeftOut(log.written, log.popped);
      assert Submitted(inputs)[..|log.popped|] == log.popped;
      assert |Submitted(inputs)| == |log.popped| + |log.queue|;
    }
  }

  // ----- Reassembly -----

  /** One websocket frame, handed over in pieces; an empty frame comes as one empty piece. */
  datatype WsFrame = WsFrame(pieces: seq<seq<byte>>) {
    predicate Valid() {
      pieces != [] && (|pieces| == 1 || forall i | 0 <= i < |pieces| :: pieces[i] != [])
    }

    function Bytes(): seq<byte> { Flatten(pieces) }
  }

  /** A message fragmented into frames, as in section 5.4 of RFC 6455: only the last frame is final. */
  predicate ValidFragments(frames: seq<WsFrame>) {
    frames != [] && forall i | 0 <= i < |frames| :: frames[i].Valid()
  }

  function MessageOf(frames: seq<WsFrame>): Message {
    if frames == [] then [] else frames[0].Bytes() + MessageOf(frames[1..])
  }

  /** The receive callbacks for the pieces of one frame: each tells how many bytes of the frame come after it. */
  function PieceArrivals(pieces: seq<seq<byte>>, isFinal: bool): seq<SocketInput> {
    if pieces == [] then []
    else [Receive(pieces[0], |Flatten(pieces[1..])|, isFinal)] + PieceArrivals(pieces[1..], isFinal)
  }

  function Arrivals(frames: seq<WsFrame>): seq<SocketInput> {
    if frames == [] then []
    else PieceArrivals(frames[0].pieces, |frames| == 1) + Arrivals(frames[1..])
  }

  function AllArrivals(messages: seq<seq<WsFrame>>): seq<SocketInput> {
    if messages == [] then [] else AllArrivals(Init(messages)) + Arrivals(Last(messages))
  }

  function MessagesOf(messages: seq<seq<WsFrame>>): seq<Message> {
    seq(|messages|, i requires 0 <= i < |messages| => MessageOf(messages[i]))
  }

  lemma {:induction false} SocketRunOne(start: SocketLog, x: SocketInput)
    ensures SocketRun(start, [x]) == SocketStep(start, x)
  {
    assert Init([x]) == [];
  }

  lemma {:induction false} FlattenHead<T>(s: seq<seq<T>>)
    requires s != []
    ensures Flatten(s) == s[0] + Flatten(s[1..])
  {
    FlattenAppend([s[0]], s[1..]);
    assert [s[0]] + s[1..] == s && Init([s[0]]) == [];
  }

  lemma {:induction false} FrameArrives(log: SocketLog, pieces: seq<seq<byte>>, isFinal: bool)
    requires WsFrame(pieces).Valid()
    ensures SocketRun(log, PieceArrivals(pieces, isFinal)) ==
            if isFinal then log.(delivered := log.delivered + [log.buffer + Flatten(pieces)], buffer := [])
            else log.(buffer := log.buffer + Flatten(pieces))
    decreases |pieces|
  {
    var rest := pieces[1..];
    FlattenHead(pieces);
    var first := Receive(pieces[0], |Flatten(rest)|, isFinal);
    SocketRunOne(log, first);
    SocketRunAppend(log, [first], PieceArrivals(rest, isFinal));
    if rest == [] {
      assert Flatten(rest) == [] && Flatten(pieces) == pieces[0];
      assert PieceArrivals(rest, isFinal) == [];
    } else {
      FlattenHead(rest);
      FrameArrives(SocketStep(log, first), rest, isFinal);
      AppendAssociative(log.buffer, pieces[0], Flatten(rest));
    }
  }

  /** However a message is cut into frames and pieces, its arrival delivers the buffer followed by the message. */
  lemma {:induction false} MessageArrives(log: SocketLog, frames: seq<WsFrame>)
    requires ValidFragments(frames)
    ensures SocketRun(log, Arrivals(frames))
        == log.(delivered := log.delivered + [log.buffer + MessageOf(frames)], buffer := [])
    decreases |frames|
  {
    var head, rest := PieceArrivals(frames[0].pieces, |frames| == 1), frames[1..];
    SocketRunAppend(log, head, Arrivals(rest));
    FrameArrives(log, frames[0].pieces, |frames| == 1);
    if rest == [] {
      assert MessageOf(rest) == [] && Arrivals(rest) == [];
      assert frames[0].Bytes() + [] == frames[0].Bytes();
    } else {
      MessageArrives(SocketRun(log, head), rest);
      AppendAssociative(log.buffer, frames[0].Bytes(), MessageOf(rest));
    }
  }

  /** Arbitrarily fragmented messages arriving on an empty buffer are delivered unchanged and in order. */
  lemma {:induction false} MessagesArrive(log: SocketLog, messages: seq<seq<WsFrame>>)
    requires log.buffer == [] && forall i | 0 <= i < |messages| :: ValidFragments(messages[i])
    ensures SocketRun(log, AllArrivals(messages)) == log.(delivered := log.delivered + MessagesOf(messages))
  {
    if messages == [] {
      assert MessagesOf(messages) == [];
      assert log.delivered + [] == log.delivered;
    } else {
      var init, last := Init(messages), Last(messages);
      MessagesArrive(log, init);
      SocketRunAppend(log, AllArrivals(init), Arrivals(last));
      MessageArrives(SocketRun(log, AllArrivals(init)), last);
      assert [] + MessageOf(last) == MessageOf(last);
      AppendAssociative(log.delivered, MessagesOf(init), [MessageOf(last)]);
      assert MessagesOf(messages) == MessagesOf(init) + [MessageOf(last)];
    }
  }

  function ReceivesOf(inputs: seq<SocketInput>): seq<SocketInput> {
    if inputs == [] then []
    else ReceivesOf(Init(inputs)) + if Last(inputs).Receive? then [Last(inputs)] else []
  }

  /** Writing and connection changes in between do not disturb reassembly. */
  lemma {:induction false} OnlyReceivesDeliver(inputs: seq<SocketInput>)
    ensures var all, receives := SocketRun(OPENED, inputs), SocketRun(OPENED, ReceivesOf(inputs));
            all.delivered == receives.delivered && all.buffer == receives.buffer
  {
    if inputs != [] {
      OnlyReceivesDeliver(Init(inputs));
      if Last(inputs).Receive? {
        assert Init(ReceivesOf(inputs)) == ReceivesOf(Init(inputs));
      } else {
        assert ReceivesOf(inputs) == ReceivesOf(Init(inputs));
      }
    }
  }
}
