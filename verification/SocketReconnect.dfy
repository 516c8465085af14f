/** What the receive buffer and the write queue carry from one connection into the next. */
module SocketReconnect {
  import opened Common
  import opened SocketModel

  /** A connection closes and the next is established. */
  const RECONNECT: seq<SocketInput> := [ConnectionChange, ConnectionChange]

  lemma {:induction false} ReconnectKeeps(before: seq<SocketInput>)
    ensures SocketRun(OPENED, before + RECONNECT) == SocketRun(OPENED, before)
    ensures Submitted(before + RECONNECT) == Submitted(before)
  {
    var closed := before + [ConnectionChange];
    assert Init(closed) == before && before + RECONNECT == closed + [ConnectionChange];
    assert Init(before + RECONNECT) == closed;
  }

  // ----- The receive buffer -----

  /** Bytes arrived since a message was last completed. */
  predicate MidMessage(inputs: seq<SocketInput>) {
    inputs != [] && match Last(inputs)
      case Receive(data, remaining, isFinal) =>
        !(remaining == 0 && isFinal) && (data != [] || MidMessage(Init(inputs)))
      case _ => MidMessage(Init(inputs))
  }

  lemma {:induction false} BufferHoldsPart(inputs: seq<SocketInput>)
    ensures SocketRun(OPENED, inputs).buffer != [] <==> MidMessage(inputs)
  {
    if inputs != [] {
      BufferHoldsPart(Init(inputs));
    }
  }

  /**
   * The buffer outlives its connection: when one ends inside a message, the first message of the next is delivered with
   * the stale bytes in front. So in every run it arrives unchanged exactly when no bytes came since the last message.
   */
  lemma {:induction false} NextConnectionIntactIff(before: seq<SocketInput>, frames: seq<WsFrame>)
    requires ValidFragments(frames)
    ensures var log, after := SocketRun(OPENED, before), SocketRun(OPENED, before + RECONNECT + Arrivals(frames));
            && after.delivered == log.delivered + [log.buffer + MessageOf(frames)]
            && (after.delivered == log.delivered + [MessageOf(frames)] <==> !MidMessage(before))
  {
    var log := SocketRun(OPENED, before);
    ReconnectKeeps(before);
    SocketRunAppend(OPENED, before + RECONNECT, Arrivals(frames));
    MessageArrives(log, frames);
    BufferHoldsPart(before);
    assert Last(log.delivered + [MessageOf(frames)]) == MessageOf(frames);
    assert Last(log.delivered + [log.buffer + MessageOf(frames)]) == log.buffer + MessageOf(frames);
    if log.buffer == [] {
      assert log.buffer + MessageOf(frames) == MessageOf(frames);
    } else {
      assert |log.buffer + MessageOf(frames)| != |MessageOf(frames)|;
    }
  }

  /** As a run: the connection closes after the first of two bytes, and the next message has that byte in front. */
  lemma {:induction false} StaleByteInFront(b: byte, c: byte)
    ensures var before := [Receive([b], 1, true)];
            SocketRun(OPENED, before + RECONNECT + [Receive([c], 0, true)]).delivered == [[b, c]]
  {
    var before, piece := [Receive([b], 1, true)], Receive([c], 0, true);
    ReconnectKeeps(before);
    SocketRunOne(OPENED, before[0]);
    assert SocketRun(OPENED, before).buffer == [b];
    SocketRunAppend(OPENED, before + RECONNECT, [piece]);
    SocketRunOne(SocketRun(OPENED, before), piece);
    assert [b] + [c] == [b, c];
  }

  // ----- The write queue -----

  /** How many of the messages submitted no write has taken. */
  function Waiting(inputs: seq<SocketInput>): nat {
    if inputs == [] then 0
    else
      var earlier := Waiting(Init(inputs));
      match Last(inputs)
      case Submit(_) => earlier + 1
      case Writeable(_) => if earlier > 0 then earlier - 1 else 0
      case _ => earlier
  }

  /** How many writes failed, each of which lost the message it took. */
  function FailedWrites(inputs: seq<SocketInput>): nat {
    if inputs == [] then 0
    else
      FailedWrites(Init(inputs))
      + if Last(inputs).Writeable? && Last(inputs).bytesWritten == -1 && Waiting(Init(inputs)) > 0 then 1 else 0
  }

  lemma {:induction false} ErrorsAreFailedWrites(inputs: seq<SocketInput>)
    ensures SocketRun(OPENED, inputs).errors == FailedWrites(inputs)
  {
    if inputs != [] {
      ErrorsAreFailedWrites(Init(inputs));
      QueueLength(Init(inputs));
    }
  }

  lemma {:induction false} QueueLength(inputs: seq<SocketInput>)
    ensures |SocketRun(OPENED, inputs).queue| == Waiting(inputs)
    ensures |SocketRun(OPENED, inputs).popped| + Waiting(inputs) == |Submitted(inputs)|
  {
    Conservation(inputs);
    if inputs != [] {
      QueueLength(Init(inputs));
      Conservation(Init(inputs));
    }
  }

  /** Without a write error, what was taken was written. */
  lemma {:induction false} WrittenCount(inputs: seq<SocketInput>)
    requires SocketRun(OPENED, inputs).errors == 0
    ensures var log := SocketRun(OPENED, inputs);
            && log.written == log.popped
            && log.written <= Submitted(inputs) && |log.written| + Waiting(inputs) == |Submitted(inputs)|
  {
    Conservation(inputs);
    QueueLength(inputs);
    NothingLeftOut(SocketRun(OPENED, inputs).written, SocketRun(OPENED, inputs).popped);
  }

  lemma {:induction false} SubmittedGrows(inputs: seq<SocketInput>, more: seq<SocketInput>)
    ensures Submitted(inputs) <= Submitted(inputs + more)
    ensures SocketRun(OPENED, inputs).popped <= SocketRun(OPENED, inputs + more).popped
    ensures SocketRun(OPENED, inputs).errors <= SocketRun(OPENED, inputs + more).errors
  {
    if more == [] {
      assert inputs + more == inputs;
    } else {
      assert Init(inputs + more) == inputs + Init(more);
      SubmittedGrows(inputs, Init(more));
    }
  }

  /**
   * The queue outlives its connection too: the first message written after a reconnect is the one submitted on
   * connecting if and only if nothing was waiting; otherwise it is the oldest message of the connection before.
   */
  lemma {:induction false} FirstWriteIff(before: seq<SocketInput>, m: Message, more: seq<SocketInput>)
    requires var all := before + RECONNECT + [Submit(m)] + more;
             |SocketRun(OPENED, all).popped| > |SocketRun(OPENED, before).popped|
    ensures var log, after := SocketRun(OPENED, before), SocketRun(OPENED, before + RECONNECT + [Submit(m)] + more);
            && log.popped <= after.popped
            && after.popped[|log.popped|] == (if log.queue == [] then m else log.queue[0])
            && (log.queue == [] <==> Waiting(before) == 0)
            && (|log.popped| == |Submitted(before)| <==> Waiting(before) == 0)
  {
    var linked, log := before + RECONNECT, SocketRun(OPENED, before);
    var submitted := linked + [Submit(m)];
    ReconnectKeeps(before);
    assert Init(submitted) == linked;
    assert before + (RECONNECT + [Submit(m)] + more) == submitted + more;
    SubmittedGrows(submitted, more);
    SubmittedGrows(before, RECONNECT + [Submit(m)] + more);
    Conservation(submitted + more);
    Conservation(before);
    QueueLength(before);
    var after := SocketRun(OPENED, submitted + more);
    assert after.popped[|log.popped|] == Submitted(submitted + more)[|log.popped|];
    assert Submitted(submitted) == log.popped + log.queue + [m];
    assert Submitted(submitted)[|log.popped|] == (if log.queue == [] then m else log.queue[0]);
  }
}
