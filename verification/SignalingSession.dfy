/** When observers may hear that a session started, with which credentials, and how often. */
module SignalingSession {
  import opened Common
  import opened Sdp
  import opened SignalingModel
  import opened SignalingWire
  import opened SignalingIndex

  // ----- The session, read off the inputs alone -----

  /** The transport connected, and nothing ended or restarted the connection since. */
  predicate Linked(inputs: seq<Input>) {
    inputs != [] && match Last(inputs)
      case SignalingConnected => true
      case Start => false
      case Stop => false
      case SignalingError(_) => false
      case SignalingClosed => false
      case LeaveAckFrame => false
      case _ => Linked(Init(inputs))
  }

  /** The credentials a JOIN_ACK carries, if all their parts are there. */
  function CredentialsIn(ack: JoinAck): Option<TurnCredentials> {
    match ack.turnCredentials
    case Some(TurnPart(Some(username), Some(password), Some(ttl), uris)) =>
      if uris == [] then None else Some(TurnCredentials(username, password, ttl, uris))
    case _ => None
  }

  /** Credentials and the time, in nanoseconds, at which they came; their time to live is in seconds. */
  datatype Receipt = Receipt(credentials: TurnCredentials, time: int) {
    function Deadline(): int {
      time + credentials.ttl * 1_000_000_000
    }
  }

  /** The credentials of the latest complete JOIN_ACK. */
  function LatestAck(inputs: seq<Input>): Option<Receipt> {
    if inputs == [] then None
    else match Last(inputs)
      case JoinAckFrame(ack, now) =>
        (match CredentialsIn(ack)
         case Some(credentials) => Some(Receipt(credentials, now))
         case None => LatestAck(Init(inputs)))
      case _ => LatestAck(Init(inputs))
  }

  /** A complete JOIN_ACK came since the transport last failed or closed, that is, since the last Stopped event. */
  predicate Joined(inputs: seq<Input>) {
    inputs != [] && match Last(inputs)
      case JoinAckFrame(ack, _) => CredentialsIn(ack).Some? || Joined(Init(inputs))
      case SignalingError(_) => false
      case SignalingClosed => false
      case _ => Joined(Init(inputs))
  }

  ghost predicate SessionInvariant(c: Client, inputs: seq<Input>) {
    && (c.state == Connected <==> Linked(inputs))
    && (c.isJoined <==> Joined(inputs))
    && (Joined(inputs) ==> LatestAck(inputs).Some?)
    && (LatestAck(inputs).Some? ==>
          && c.turnCredentials == LatestAck(inputs).value.credentials
          && c.turnExpireTime == LatestAck(inputs).value.Deadline())
  }

  /** Which inputs change the connection state, the join flag and the credentials. */
  lemma {:induction false} SessionFields(cfg: Config, log: Log, x: Input)
    ensures var c, after := log.client, Step(cfg, log, x).client;
            && (after.state == Connected <==>
                  x.SignalingConnected?
                  || (c.state == Connected && !x.Start? && !x.Stop?
                      && !x.SignalingError? && !x.SignalingClosed? && !x.LeaveAckFrame?))
            && (after.isJoined <==>
                  (x.JoinAckFrame? && CredentialsIn(x.joinAck).Some?)
                  || (c.isJoined && !x.SignalingError? && !x.SignalingClosed?))
            && (if x.JoinAckFrame? && CredentialsIn(x.joinAck).Some? then
                  after.turnCredentials == CredentialsIn(x.joinAck).value
                  && after.turnExpireTime == Receipt(after.turnCredentials, x.now).Deadline()
                else after.turnCredentials == c.turnCredentials && after.turnExpireTime == c.turnExpireTime)
  {
    if x.SubscribeAckFrame? && x.subAck.sdpAnswer.Some? {
      AllocateOnlyLocal(log.client, Sections(x.subAck.sdpAnswer.value), x.subAck.allocations, 0);
    }
  }

  /** The client's connection and join flags and its credentials are exactly what the inputs so far say. */
  lemma {:induction false} SessionFollowsInputs(cfg: Config, inputs: seq<Input>)
    ensures SessionInvariant(Run(cfg, inputs).client, inputs)
  {
    if inputs != [] {
      SessionFollowsInputs(cfg, Init(inputs));
      SessionFields(cfg, Run(cfg, Init(inputs)), Last(inputs));
    }
  }

  // ----- Events of one input -----

  /** The events one input adds. */
  function NewEvents(cfg: Config, inputs: seq<Input>, x: Input): seq<Event> {
    var before, after := Run(cfg, inputs).events, Step(cfg, Run(cfg, inputs), x).events;
    if |before| <= |after| then after[|before|..] else []
  }

  lemma EventsGrow(cfg: Config, log: Log, x: Input)
    ensures log.events <= Step(cfg, log, x).events
    ensures forall i | |log.events| <= i < |Step(cfg, log, x).events| :: VideoEvent(Step(cfg, log, x).events[i]) ==>
              x.IndexFrame? && Accepts(log.client, x.index)
  {
  }

  /**
   * Session gating. Whatever came before, a video event is only ever sent for an index frame that arrives while the
   * transport is connected and after a complete JOIN_ACK since the last Stopped event. Started carries the credentials
   * of the latest complete JOIN_ACK, no later than that ack's receipt plus its time to live.
   */
  lemma {:induction false} SessionGating(cfg: Config, inputs: seq<Input>, x: Input, e: Event)
    requires e in NewEvents(cfg, inputs, x) && VideoEvent(e)
    ensures x.IndexFrame? && x.index.atCapacity != Some(true) && Linked(inputs) && Joined(inputs)
    ensures e.Started? ==>
              && LatestAck(inputs).Some?
              && e.credentials == LatestAck(inputs).value.credentials
              && x.now <= LatestAck(inputs).value.Deadline()
  {
    SessionFollowsInputs(cfg, inputs);
    EventsGrow(cfg, Run(cfg, inputs), x);
    var i :| 0 <= i < |NewEvents(cfg, inputs, x)| && NewEvents(cfg, inputs, x)[i] == e;
    assert Step(cfg, Run(cfg, inputs), x).events[|Run(cfg, inputs).events| + i] == e;
  }

  /** An index frame takes effect exactly when the inputs so far left the client connected and joined. */
  lemma {:induction false} IndexAcceptedIff(cfg: Config, inputs: seq<Input>, index: Index)
    ensures Accepts(Run(cfg, inputs).client, index)
        <==> Linked(inputs) && Joined(inputs) && index.atCapacity != Some(true)
  {
    SessionFollowsInputs(cfg, inputs);
  }

  // ----- What an input does to the count of Started -----

  /** How often Started was sent since the last transport close. */
  function StartsSinceClose(events: seq<Event>): nat {
    if events == [] then 0
    else match Last(events)
      case Stopped(ClosedOk) => 0
      case Started(_, _) => StartsSinceClose(Init(events)) + 1
      case _ => StartsSinceClose(Init(events))
  }

  lemma {:induction false} StartsSnoc(events: seq<Event>, e: Event)
    ensures StartsSinceClose(events + [e]) ==
            if e == Stopped(ClosedOk) then 0
            else if e.Started? then StartsSinceClose(events) + 1
            else StartsSinceClose(events)
  {
    assert Init(events + [e]) == events;
  }

  lemma {:induction false} StartsAfterIndex(events: seq<Event>, c: Client, index: Index, now: int)
    ensures StartsSinceClose(events + IndexEvents(c, index, now)) ==
            StartsSinceClose(events)
            + if Accepts(c, index) && !c.hasReceivedFirstIndex && !Expired(c, now) then 1 else 0
  {
    var introduced, gone := NewSources(c.directory, index.sources), Departed(c.directory, index.sources);
    StartsSnoc(events, Started(c.turnCredentials, introduced));
    TwoOtherEvents(events, if introduced == [] then [] else [Available(introduced)],
                   if gone == [] then [] else [Unavailable(gone)]);
    assert events + [] == events;
  }

  lemma {:induction false} StartsAfterData(events: seq<Event>, payloads: seq<DataPayload>)
    ensures StartsSinceClose(events + DataEvents(payloads)) == StartsSinceClose(events)
  {
    var received, throttled := ReceivedMessages(payloads), ThrottledMessages(payloads);
    TwoOtherEvents(events, if received == [] then [] else [DataReceived(received)],
                   if throttled == [] then [] else [DataFailed(throttled)]);
  }

  predicate Neutral(events: seq<Event>) {
    events == [] || (|events| == 1 && !events[0].Started? && !events[0].Stopped?)
  }

  lemma {:induction false} TwoOtherEvents(events: seq<Event>, one: seq<Event>, two: seq<Event>)
    requires Neutral(one) && Neutral(two)
    ensures StartsSinceClose(events + (one + two)) == StartsSinceClose(events)
  {
    AppendAssociative(events, one, two);
    if one == [] {
      assert events + one == events;
    } else {
      assert one == [one[0]];
      StartsSnoc(events, one[0]);
    }
    if two == [] {
      assert (events + one) + two == events + one;
    } else {
      assert two == [two[0]];
      StartsSnoc(events + one, two[0]);
    }
  }

  /**
   * One input starts a session exactly when it is the first accepted index frame and the credentials have not expired.
   */
  lemma {:induction false} StartsStep(cfg: Config, log: Log, x: Input)
    ensures StartsSinceClose(Step(cfg, log, x).events) ==
            if x.SignalingClosed? then 0
            else if x.IndexFrame? && Accepts(log.client, x.index)
                 && !log.client.hasReceivedFirstIndex && !Expired(log.client, x.now)
            then StartsSinceClose(log.events) + 1
            else StartsSinceClose(log.events)
  {
    match x
    case IndexFrame(index, now) => StartsAfterIndex(log.events, log.client, index, now);
    case DataMessageFrame(payloads) => StartsAfterData(log.events, payloads);
    case SignalingClosed => StartsSnoc(log.events, Stopped(ClosedOk));
    case SignalingError(description) => StartsSnoc(log.events, Stopped(ClientError(description)));
    case SubscribeAckFrame(ack) =>
      if ack.sdpAnswer.Some? {
        StartsSnoc(log.events, RemoteDescription(ack.sdpAnswer.value));
      }
    case SendDataMessage(m) =>
      if log.client.state == Connected && ValidateDataMessage(m).Some? {
        StartsSnoc(log.events, DataFailed([DataMessageSendError(m.topic, m.data, ValidateDataMessage(m).value)]));
      }
    case _ =>
  }
}
