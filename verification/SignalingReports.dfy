/** The frames a client sends and the events its observers get for one more input, read off the inputs before it. */
module SignalingReports {
  import opened Common
  import opened Sdp
  import opened SignalingModel
  import opened SignalingWire
  import opened SignalingSession
  import opened SignalingStreams
  import opened SignalingLocal

  // ----- Frames -----

  /** A topic has 1 to 36 letters, digits, underscores or hyphens. */
  predicate AllowedTopic(topic: string) {
    1 <= |topic| <= 36
    && forall i | 0 <= i < |topic| ::
         'a' <= topic[i] <= 'z' || 'A' <= topic[i] <= 'Z' || '0' <= topic[i] <= '9' || topic[i] in {'_', '-'}
  }

  /** Why a message is not sent, the first reason that holds. */
  function Rejected(m: DataMessageToSend): Option<SendErrorReason> {
    if |m.data| > 2048 then Some(InvalidDataMessageSize)
    else if !AllowedTopic(m.topic) then Some(InvalidTopic)
    else if m.lifetimeMs < 0 then Some(InvalidLifeTimeMs)
    else None
  }

  /** The frames sent for `x` after `inputs`. What a SUBSCRIBE holds is the matter of `SubscribeFollowsInputs`. */
  function FramesFor(cfg: Config, inputs: seq<Input>, x: Input): seq<WireFrame> {
    match x
    case SignalingConnected => [Join(2, 25, if cfg.enableAttendeeUpdate then 34 else 32)]
    case SendUpdates =>
      if Linked(inputs) then [Subscribe(BuildSubscription(cfg, Run(cfg, inputs).client))] else []
    case SendDataMessage(m) => if Linked(inputs) && Rejected(m).None? then [DataMessage(m)] else []
    case UpdateLocalAudio(_, mute) =>
      if Linked(inputs) && mute != MuteAsked(cfg, inputs) then [AudioControl(mute)] else []
    case Stop => if Linked(inputs) then [Leave] else []
    case _ => []
  }

  lemma {:induction false} RejectedIsInvalid(m: DataMessageToSend)
    ensures ValidateDataMessage(m) == Rejected(m)
  {
    assert TopicMatches(m.topic) <==> AllowedTopic(m.topic);
  }

  /** In every run one more input sends exactly the frames the inputs so far call for. */
  lemma {:induction false} FramesFollowInputs(cfg: Config, inputs: seq<Input>, x: Input)
    ensures Run(cfg, inputs + [x]).sent == Run(cfg, inputs).sent + FramesFor(cfg, inputs, x)
  {
    RunSnoc(cfg, inputs, x);
    SessionFollowsInputs(cfg, inputs);
    LocalFollowsInputs(cfg, inputs, "");
    match x
    case SendDataMessage(m) => RejectedIsInvalid(m);
    case SubscribeAckFrame(ack) => SendsAtMostOne(cfg, Run(cfg, inputs), x);
    case _ =>
  }

  // ----- Events -----

  /** The events sent for `x` after `inputs`; those of index frames are the matter of `IndexReports`. */
  function EventsFor(inputs: seq<Input>, x: Input): seq<Event>
    requires !x.IndexFrame?
  {
    match x
    case SignalingError(description) => [Stopped(ClientError(description))]
    case SignalingClosed => [Stopped(ClosedOk)]
    case SubscribeAckFrame(SubscribeAck(Some(answer), _)) => [RemoteDescription(answer)]
    case SendDataMessage(m) =>
      (match Rejected(m)
       case Some(reason) => if Linked(inputs) then [DataFailed([DataMessageSendError(m.topic, m.data, reason)])] else []
       case None => [])
    case DataMessageFrame(payloads) =>
      var received, throttled := ReceivedMessages(payloads), ThrottledMessages(payloads);
      if received == [] then (if throttled == [] then [] else [DataFailed(throttled)])
      else if throttled == [] then [DataReceived(received)]
      else [DataReceived(received), DataFailed(throttled)]
    case _ => []
  }

  /** In every run one more input, index frames apart, makes exactly the reports the inputs so far call for. */
  lemma {:induction false} EventsFollowInputs(cfg: Config, inputs: seq<Input>, x: Input)
    requires !x.IndexFrame?
    ensures Run(cfg, inputs + [x]).events == Run(cfg, inputs).events + EventsFor(inputs, x)
  {
    RunSnoc(cfg, inputs, x);
    SessionFollowsInputs(cfg, inputs);
    if x.SendDataMessage? {
      RejectedIsInvalid(x.toSend);
    }
  }

  // ----- Remote descriptions -----

  /** The answers observers were given, in order. */
  function AnswersTold(events: seq<Event>): seq<string> {
    if events == [] then []
    else AnswersTold(Init(events)) + if Last(events).RemoteDescription? then [Last(events).sdpAnswer] else []
  }

  /** The answer an input brings. */
  function AnswerIn(x: Input): seq<string> {
    match x
    case SubscribeAckFrame(SubscribeAck(Some(answer), _)) => [answer]
    case _ => []
  }

  /** The answers acknowledgements brought, in order. */
  function AnswersReceived(inputs: seq<Input>): seq<string> {
    if inputs == [] then [] else AnswersReceived(Init(inputs)) + AnswerIn(Last(inputs))
  }

  lemma {:induction false} AnswersAppend(events: seq<Event>, more: seq<Event>)
    ensures AnswersTold(events + more) == AnswersTold(events) + AnswersTold(more)
  {
    if more == [] {
      assert events + more == events;
    } else {
      assert Init(events + more) == events + Init(more);
      AnswersAppend(events, Init(more));
    }
  }

  lemma {:induction false} NoAnswers(events: seq<Event>)
    requires forall i | 0 <= i < |events| :: !events[i].RemoteDescription?
    ensures AnswersTold(events) == []
  {
    if events != [] {
      NoAnswers(Init(events));
    }
  }

  lemma {:induction false} OneAnswer(inputs: seq<Input>, x: Input)
    requires !x.IndexFrame?
    ensures AnswersTold(EventsFor(inputs, x)) == AnswerIn(x)
  {
    if x.SubscribeAckFrame? && x.subAck.sdpAnswer.Some? {
      assert Init([RemoteDescription(x.subAck.sdpAnswer.value)]) == [];
    } else {
      NoAnswers(EventsFor(inputs, x));
    }
  }

  lemma {:induction false} AnswersStep(cfg: Config, inputs: seq<Input>, x: Input)
    ensures AnswersTold(Run(cfg, inputs + [x]).events) == AnswersTold(Run(cfg, inputs).events) + AnswerIn(x)
  {
    var log := Run(cfg, inputs);
    if x.IndexFrame? {
      RunSnoc(cfg, inputs, x);
      NoAnswers(IndexEvents(log.client, x.index, x.now));
      AnswersAppend(log.events, IndexEvents(log.client, x.index, x.now));
    } else {
      EventsFollowInputs(cfg, inputs, x);
      AnswersAppend(log.events, EventsFor(inputs, x));
      OneAnswer(inputs, x);
    }
  }

  /** In every run observers are given exactly the answers received, each once and in order. */
  lemma {:induction false} AnswersFollowInputs(cfg: Config, inputs: seq<Input>)
    ensures AnswersTold(Run(cfg, inputs).events) == AnswersReceived(inputs)
  {
    if inputs != [] {
      AnswersFollowInputs(cfg, Init(inputs));
      AnswersStep(cfg, Init(inputs), Last(inputs));
      assert Init(inputs) + [Last(inputs)] == inputs;
    }
  }
}
