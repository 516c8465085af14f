/**
 * When observers of remote video know the directory and when a session has started, read off the inputs alone; and
 * runs in which they do not and it has not.
 */
module SignalingView {
  import opened Common
  import opened SignalingModel
  import opened SignalingIndex
  import opened SignalingSession

  /** The input is an index frame that takes effect after `inputs`. */
  predicate EffectiveIndex(inputs: seq<Input>, x: Input) {
    x.IndexFrame? && x.index.atCapacity != Some(true) && Linked(inputs) && Joined(inputs)
  }

  /** The attendees of the last index frame that took effect since the last leave acknowledgement. */
  function ListedIds(inputs: seq<Input>): set<string> {
    if inputs == [] || Last(inputs).LeaveAckFrame? then {}
    else if EffectiveIndex(Init(inputs), Last(inputs)) then AttendeeIds(Last(inputs).index.sources)
    else ListedIds(Init(inputs))
  }

  /** An index frame took effect since the transport last closed. */
  predicate IndexSeen(inputs: seq<Input>) {
    inputs != [] && !Last(inputs).SignalingClosed?
    && (EffectiveIndex(Init(inputs), Last(inputs)) || IndexSeen(Init(inputs)))
  }

  /** The directory's keys and the first-index flag are exactly what the inputs so far say. */
  lemma {:induction false} DirectoryFollowsInputs(cfg: Config, inputs: seq<Input>)
    ensures Run(cfg, inputs).client.directory.Keys == ListedIds(inputs)
    ensures Run(cfg, inputs).client.hasReceivedFirstIndex <==> IndexSeen(inputs)
  {
    if inputs != [] {
      var init, x := Init(inputs), Last(inputs);
      DirectoryFollowsInputs(cfg, init);
      var log := Run(cfg, init);
      FirstIndexFlag(cfg, log, x);
      if x.IndexFrame? {
        IndexAcceptedIff(cfg, init, x.index);
        RefreshedKeys(log.client.directory, x.index.sources);
      } else if !x.LeaveAckFrame? {
        DirectoryKept(cfg, log, x);
      }
    }
  }

  /**
   * An input keeps observers right: the first index frame of a session that takes effect lists nobody known before or,
   * past the deadline of the credentials, exactly those; and a leave acknowledgement comes when nobody is listed.
   */
  predicate KeepsView(inputs: seq<Input>, x: Input) {
    && (EffectiveIndex(inputs, x) && !IndexSeen(inputs) && LatestAck(inputs).Some? ==>
          if x.now > LatestAck(inputs).value.Deadline() then AttendeeIds(x.index.sources) == ListedIds(inputs)
          else AttendeeIds(x.index.sources) !! ListedIds(inputs))
    && (x.LeaveAckFrame? ==> ListedIds(inputs) == {})
  }

  lemma {:induction false} KeepsViewIsSyncSafe(cfg: Config, inputs: seq<Input>, x: Input)
    ensures KeepsView(inputs, x) <==> SyncSafe(Run(cfg, inputs).client, x)
  {
    DirectoryFollowsInputs(cfg, inputs);
    SessionFollowsInputs(cfg, inputs);
    if x.IndexFrame? {
      IndexAcceptedIff(cfg, inputs, x.index);
    } else if x.LeaveAckFrame? {
      var d := Run(cfg, inputs).client.directory;
      assert d.Keys == {} <==> d == map[];
    }
  }

  predicate KeepsViewThroughout(inputs: seq<Input>) {
    inputs == [] || (KeepsViewThroughout(Init(inputs)) && KeepsView(Init(inputs), Last(inputs)))
  }

  /**
   * Over any run, the attendees an observer believes to have video are those of the last index frame that took effect
   * after every input, if and only if every input keeps the view; the condition reads nothing but the inputs.
   */
  lemma {:induction false} ViewFollowsInputsIff(cfg: Config, inputs: seq<Input>)
    ensures InSyncThroughout(cfg, inputs) <==> KeepsViewThroughout(inputs)
    ensures InSyncThroughout(cfg, inputs) ==> View(Run(cfg, inputs).events) == ListedIds(inputs)
  {
    ObserverView(cfg, inputs);
    SafeIffKeeps(cfg, inputs);
    DirectoryFollowsInputs(cfg, inputs);
  }

  lemma {:induction false} SafeIffKeeps(cfg: Config, inputs: seq<Input>)
    ensures SyncSafeThroughout(cfg, inputs) <==> KeepsViewThroughout(inputs)
  {
    if inputs != [] {
      SafeIffKeeps(cfg, Init(inputs));
      KeepsViewIsSyncSafe(cfg, Init(inputs), Last(inputs));
    }
  }

  // ----- When a session has started -----

  /**
   * The first index frame that took effect since the transport last closed came no later than the deadline of the
   * credentials held then.
   */
  predicate StartedInTime(inputs: seq<Input>) {
    if inputs == [] || Last(inputs).SignalingClosed? then false
    else if EffectiveIndex(Init(inputs), Last(inputs)) && !IndexSeen(Init(inputs)) then
      LatestAck(Init(inputs)).Some? && Last(inputs).now <= LatestAck(Init(inputs)).value.Deadline()
    else StartedInTime(Init(inputs))
  }

  lemma {:induction false} InTimeNeedsIndex(inputs: seq<Input>)
    ensures StartedInTime(inputs) ==> IndexSeen(inputs)
  {
    if inputs != [] {
      InTimeNeedsIndex(Init(inputs));
    }
  }

  /** In every run Started was sent once since the last transport close if the session started in time, else never. */
  lemma {:induction false} StartedIff(cfg: Config, inputs: seq<Input>)
    ensures StartsSinceClose(Run(cfg, inputs).events) == if StartedInTime(inputs) then 1 else 0
  {
    if inputs != [] {
      var init, x := Init(inputs), Last(inputs);
      StartedIff(cfg, init);
      InTimeNeedsIndex(init);
      DirectoryFollowsInputs(cfg, init);
      SessionFollowsInputs(cfg, init);
      if x.IndexFrame? {
        IndexAcceptedIff(cfg, init, x.index);
      }
      StartsStep(cfg, Run(cfg, init), x);
    }
  }

  /**
   * Whether a session starts is settled by its first index frame that takes effect: until the transport closes, no
   * further input, fresh credentials included, changes how often Started was sent.
   */
  lemma {:induction false} FirstIndexDecides(cfg: Config, before: seq<Input>, more: seq<Input>)
    requires IndexSeen(before) && forall i | 0 <= i < |more| :: !more[i].SignalingClosed?
    ensures IndexSeen(before + more) && (StartedInTime(before + more) <==> StartedInTime(before))
    ensures StartsSinceClose(Run(cfg, before + more).events) == StartsSinceClose(Run(cfg, before).events)
    decreases |more|
  {
    if more == [] {
      assert before + more == before;
    } else {
      assert Init(before + more) == before + Init(more) && Last(before + more) == more[|more| - 1];
      FirstIndexDecides(cfg, before, Init(more));
    }
    StartedIff(cfg, before + more);
    StartedIff(cfg, before);
  }

  // ----- Runs that fail -----

  /** An acknowledgement with all credentials, valid for `ttl` seconds. */
  function FullAck(ttl: u32): JoinAck {
    JoinAck(Some(TurnPart(Some("user"), Some("password"), Some(ttl), ["turn:host"])))
  }

  function FullCredentials(ttl: u32): TurnCredentials {
    TurnCredentials("user", "password", ttl, ["turn:host"])
  }

  /** An index frame with one source. */
  function OneSource(a: string): Index {
    Index(None, [IndexSource(1, 1, 100, a, "")])
  }

  /** Connect, join, and hear of `a`. */
  function Session(a: string): seq<Input> {
    [SignalingConnected, JoinAckFrame(FullAck(60), 0), IndexFrame(OneSource(a), 0)]
  }

  lemma OneSourceIds(a: string)
    ensures AttendeeIds(OneSource(a).sources) == {a}
  {
    assert OneSource(a).sources[0].attendeeId == a;
  }

  lemma {:induction false} SessionInputs(before: seq<Input>, a: string)
    ensures var joined := before + [SignalingConnected] + [JoinAckFrame(FullAck(60), 0)];
            && Linked(joined) && Joined(joined)
            && LatestAck(joined) == Some(Receipt(FullCredentials(60), 0))
            && ListedIds(joined) == ListedIds(before) && (IndexSeen(joined) <==> IndexSeen(before))
            && joined + [IndexFrame(OneSource(a), 0)] == before + Session(a)
  {
    var linked := before + [SignalingConnected];
    var joined := linked + [JoinAckFrame(FullAck(60), 0)];
    assert Init(linked) == before && Init(joined) == linked;
    assert joined + [IndexFrame(OneSource(a), 0)] == before + Session(a);
  }

  /**
   * A reconnect, as a run: after a session that lists `a`, a transport close and the same session again, the directory
   * still lists `a` but the observer, whom `Started` gave no source, knows nobody.
   */
  lemma {:induction false} ReconnectLosesView(cfg: Config, a: string)
    ensures var log := Run(cfg, Session(a) + [SignalingClosed] + Session(a));
            && log.client.directory.Keys == {a}
            && View(log.events) == {}
            && !InSync(log)
  {
    SessionInputs([], a);
    assert [] + Session(a) == Session(a);
    var first := [SignalingConnected] + [JoinAckFrame(FullAck(60), 0)];
    assert [] + [SignalingConnected] == [SignalingConnected];
    OneSourceIds(a);
    var heard := first + [IndexFrame(OneSource(a), 0)];
    assert Init(heard) == first && heard == Session(a);
    assert ListedIds(heard) == {a};
    var closed := heard + [SignalingClosed];
    assert Init(closed) == heard;
    assert ListedIds(closed) == {a} && !IndexSeen(closed);
    SessionInputs(closed, a);
    RestartedWithKnown(cfg, closed + [SignalingConnected] + [JoinAckFrame(FullAck(60), 0)], a);
  }

  lemma {:induction false} RestartedWithKnown(cfg: Config, joined: seq<Input>, a: string)
    requires Linked(joined) && Joined(joined) && LatestAck(joined) == Some(Receipt(FullCredentials(60), 0))
    requires ListedIds(joined) == {a} && !IndexSeen(joined)
    ensures var log := Run(cfg, joined + [IndexFrame(OneSource(a), 0)]);
            log.client.directory.Keys == {a} && View(log.events) == {} && !InSync(log)
  {
    var log, x := Run(cfg, joined), IndexFrame(OneSource(a), 0);
    DirectoryFollowsInputs(cfg, joined);
    SessionFollowsInputs(cfg, joined);
    IndexAcceptedIff(cfg, joined, OneSource(a));
    DirectoryKeyed(cfg, joined);
    OneSourceIds(a);
    RunSnoc(cfg, joined, x);
    StartedOmitsKnownSources(cfg, log, OneSource(a), 0);
    ViewSnoc(log.events, Started(log.client.turnCredentials, []));
    NoInfos([]);
  }

  /**
   * A session that never starts, as a run: the first index frame takes effect one tick after the credentials expired,
   * so the session is under way but Started was not sent and, until the transport closes, never will be.
   */
  lemma {:induction false} ExpiredFirstIndex(cfg: Config, a: string, more: seq<Input>)
    requires forall i | 0 <= i < |more| :: !more[i].SignalingClosed?
    ensures var run := [SignalingConnected] + [JoinAckFrame(FullAck(0), 0)] + [IndexFrame(OneSource(a), 1)];
            && Run(cfg, run).client.directory.Keys == {a}
            && StartsSinceClose(Run(cfg, run + more).events) == 0
  {
    var linked := [SignalingConnected];
    var joined := linked + [JoinAckFrame(FullAck(0), 0)];
    var x := IndexFrame(OneSource(a), 1);
    assert Init(linked) == [] && Init(joined) == linked && Init(joined + [x]) == joined;
    assert !IndexSeen([]) && !IndexSeen(linked) && !IndexSeen(joined);
    DirectoryFollowsInputs(cfg, joined);
    SessionFollowsInputs(cfg, joined);
    assert LatestAck(joined) == Some(Receipt(FullCredentials(0), 0)) && Receipt(FullCredentials(0), 0).Deadline() == 0;
    IndexAcceptedIff(cfg, joined, OneSource(a));
    OneSourceIds(a);
    DirectoryFollowsInputs(cfg, joined + [x]);
    assert ListedIds(joined + [x]) == {a} && IndexSeen(joined + [x]) && !StartedInTime(joined + [x]);
    FirstIndexDecides(cfg, joined + [x], more);
    StartedIff(cfg, joined + [x]);
  }
}
