/** `LibwebsocketsWebsocket`: the receive and writeable callbacks and `SendBinary`, on the object's own fields. */
module Websocket {
  import opened Common
  import opened SocketModel
  import opened SocketReconnect

  /** Room the library needs in front of the data of a write. */
  const LWS_PRE: nat := 16

  class LibwebsocketsWebsocket {
    /** Messages wait here until the socket accepts them. */
    var messageQueue: seq<Message>
    var receivedDataBuffer: seq<byte>

    ghost var history: seq<SocketInput>
    ghost var delivered: seq<Message>
    ghost var popped: seq<Message>
    ghost var written: seq<Message>
    ghost var errors: nat

    ghost function Log(): SocketLog
      reads this
    {
      SocketLog(messageQueue, receivedDataBuffer, delivered, popped, written, errors)
    }

    ghost predicate Valid()
      reads this
    {
      Log() == SocketRun(OPENED, history)
    }

    constructor ()
      ensures Valid() && history == []
    {
      messageQueue, receivedDataBuffer := [], [];
      history, delivered, popped, written, errors := [], [], [], [], 0;
    }

    /** `LWS_CALLBACK_CLIENT_RECEIVE`. */
    method OnReceive(data: seq<byte>, remaining: nat, isFinal: bool)
      requires Valid()
      modifies this
      ensures Valid() && history == old(history) + [Receive(data, remaining, isFinal)]
    {
      receivedDataBuffer := receivedDataBuffer + data;
      if remaining == 0 && isFinal {
        delivered := delivered + [receivedDataBuffer];
        receivedDataBuffer := [];
      }
      history := history + [Receive(data, remaining, isFinal)];
      assert Init(history) == old(history);
    }

    /**
     * `LWS_CALLBACK_CLIENT_WRITEABLE`; `bytesWritten` is what `lws_write` returns. A failed write closes the
     * connection.
     */
    method OnWriteable(bytesWritten: int) returns (closes: bool)
      requires Valid()
      modifies this
      ensures Valid() && history == old(history) + [Writeable(bytesWritten)]
      ensures closes <==> old(messageQueue) != [] && bytesWritten == -1
    {
      history := history + [Writeable(bytesWritten)];
      assert Init(history) == old(history);
      closes := false;
      if messageQueue != [] {
        var data := messageQueue[0];
        messageQueue := messageQueue[1..];
        popped := popped + [data];
        var onWire := PrefixedData(data);
        if bytesWritten == -1 {
          errors := errors + 1;
          closes := true;
        } else {
          written := written + [onWire];
        }
      }
    }

    /** The bytes handed to `lws_write`: those of the padded copy from `LWS_PRE` on. */
    method PrefixedData(data: Message) returns (onWire: Message)
      ensures onWire == data
    {
      var dataWithPrefix := new byte[LWS_PRE + |data|](_ => 0);
      for i := 0 to |data|
        invariant dataWithPrefix[LWS_PRE..LWS_PRE + i] == data[..i]
      {
        dataWithPrefix[LWS_PRE + i] := data[i];
      }
      onWire := dataWithPrefix[LWS_PRE..];
    }

    /** `SendBinary`. */
    method SendBinary(data: Message)
      requires Valid()
      modifies this
      ensures Valid() && history == old(history) + [Submit(data)]
    {
      messageQueue := messageQueue + [data];
      history := history + [Submit(data)];
      assert Init(history) == old(history);
    }

    /** What the run theorems say of this object at any moment. */
    lemma Guarantees()
      requires Valid()
      ensures Flatten(delivered) + receivedDataBuffer == BytesReceived(history)
      ensures popped + messageQueue == Submitted(history)
      ensures errors == 0 ==> written <= Submitted(history) && (messageQueue == [] <==> written == Submitted(history))
      ensures receivedDataBuffer != [] <==> MidMessage(history)
      ensures |messageQueue| == Waiting(history) && errors == FailedWrites(history)
    {
      Conservation(history);
      WrittenPrefix(history);
      BufferHoldsPart(history);
      QueueLength(history);
      ErrorsAreFailedWrites(history);
    }
  }
}
