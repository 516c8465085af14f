/** `WebsocketSignalingTransport`: a type byte in front of every serialised frame. */
module Transport {
  import opened Common
  import opened SocketModel
  import opened Websocket

  const VIDEO_TYPE: byte := 2

  /** `SerializeToString` and `ParseFromArray`, which can both fail. */
  datatype Codec<!F> = Codec(serialize: F -> Option<seq<byte>>, parse: seq<byte> -> Option<F>)

  ghost predicate Inverse<F(!new)>(codec: Codec<F>) {
    forall f :: codec.serialize(f).Some? ==> codec.parse(codec.serialize(f).value) == Some(f)
  }

  function Framed(payload: seq<byte>): Message {
    [VIDEO_TYPE] + payload
  }

  /** The payload of a received message, which must have at least one byte after the type byte. */
  function Unframed(message: Message): Option<seq<byte>> {
    if |message| < 2 then None else Some(message[1..])
  }

  /** The frame an arriving message holds, if it is long enough and parses. */
  function Understood<F>(codec: Codec<F>, message: Message): Option<F> {
    match Unframed(message)
    case None => None
    case Some(payload) => codec.parse(payload)
  }

  class WebsocketSignalingTransport<F> {
    const codec: Codec<F>
    const websocket: LibwebsocketsWebsocket
    /** The frames handed to the transport observer. */
    ghost var received: seq<F>

    constructor (codec: Codec<F>, websocket: LibwebsocketsWebsocket)
      ensures this.codec == codec && this.websocket == websocket && received == []
    {
      this.codec, this.websocket := codec, websocket;
      received := [];
    }

    /** `SendSignalFrame`: nothing is queued when serialisation fails. */
    method SendSignalFrame(frame: F) returns (sent: bool)
      requires websocket.Valid()
      modifies websocket
      ensures websocket.Valid()
      ensures sent <==> codec.serialize(frame).Some?
      ensures websocket.history == old(websocket.history)
              + if sent then [Submit([2] + codec.serialize(frame).value)] else []
    {
      var serialized := codec.serialize(frame);
      if serialized.None? {
        return false;
      }
      var buff := serialized.value;
      var data := new byte[|buff| + 1](_ => 0);
      data[0] := VIDEO_TYPE;
      for i := 0 to |buff|
        modifies data
        invariant data[..i + 1] == [VIDEO_TYPE] + buff[..i]
      {
        data[i + 1] := buff[i];
      }
      assert buff[..|buff|] == buff && data[..|buff| + 1] == data[..];
      websocket.SendBinary(data[..]);
      return true;
    }

    /** `OnWebsocketBinaryReceived`: a message too short or not parsing is dropped; the type byte is not looked at. */
    method OnWebsocketBinaryReceived(data: Message)
      modifies this
      ensures received == old(received)
              + if |data| >= 2 && codec.parse(data[1..]).Some? then [codec.parse(data[1..]).value] else []
    {
      if |data| < 2 {
        return;
      }
      var frame := codec.parse(data[1..]);
      if frame.None? {
        return;
      }
      received := received + [frame.value];
    }
  }
}
