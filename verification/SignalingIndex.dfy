/** What an index frame does to the directory of remote video sources, and what its events tell an observer. */
module SignalingIndex {
  import opened Common
  import opened Sdp
  import opened StringOrder
  import opened SignalingModel
  import opened SignalingWire

  /** Every key of the directory is the attendee id its entry stores. */
  predicate KeyedById(directory: map<string, StreamConfig>) {
    forall a | a in directory :: directory[a].attendee.attendeeId == a
  }

  function InfoIds(infos: seq<SourceInfo>): set<string> {
    set i | 0 <= i < |infos| :: infos[i].attendee.attendeeId
  }

  lemma {:induction false} NoInfos(infos: seq<SourceInfo>)
    ensures InfoIds(infos) == {} <==> infos == []
  {
    if infos != [] {
      assert infos[0].attendee.attendeeId in InfoIds(infos);
    }
  }

  // ----- First and last sources -----

  lemma {:induction false} IdsSnoc(sources: seq<IndexSource>, s: IndexSource)
    ensures AttendeeIds(sources + [s]) == AttendeeIds(sources) + {s.attendeeId}
  {
    var all := sources + [s];
    forall a ensures a in AttendeeIds(all) <==> a in AttendeeIds(sources) + {s.attendeeId} {
      if a in AttendeeIds(all) {
        var i :| 0 <= i < |all| && all[i].attendeeId == a;
        assert i < |sources| ==> sources[i].attendeeId == a;
      }
      if a in AttendeeIds(sources) {
        var i :| 0 <= i < |sources| && sources[i].attendeeId == a;
        assert all[i].attendeeId == a;
      }
      if a == s.attendeeId {
        assert all[|sources|].attendeeId == a;
      }
    }
  }

  /** `LastFor` and `FirstFor` are the sources their names promise. */
  lemma {:induction false} LastAndFirst(sources: seq<IndexSource>, i: nat)
    requires i < |sources|
    ensures sources[i].attendeeId in AttendeeIds(sources)
    ensures (forall j | i < j < |sources| :: sources[j].attendeeId != sources[i].attendeeId)
            ==> LastFor(sources, sources[i].attendeeId) == sources[i]
    ensures (forall j | 0 <= j < i :: sources[j].attendeeId != sources[i].attendeeId)
            ==> FirstFor(sources, sources[i].attendeeId) == sources[i]
  {
    var a := sources[i].attendeeId;
    IdsSnoc(Init(sources), Last(sources));
    assert Init(sources) + [Last(sources)] == sources;
    if i < |sources| - 1 {
      LastAndFirst(Init(sources), i);
      assert Init(sources)[i] == sources[i];
      assert sources[|sources| - 1] == Last(sources);
    } else if forall j | 0 <= j < i :: sources[j].attendeeId != a {
      assert a !in AttendeeIds(Init(sources));
    }
  }

  // ----- New and departed sources -----

  /** New sources are those whose attendee is neither in the directory nor earlier in the frame: no attendee twice. */
  lemma {:induction false} NewSourcesExact(directory: map<string, StreamConfig>, sources: seq<IndexSource>)
    ensures InfoIds(NewSources(directory, sources)) == AttendeeIds(sources) - directory.Keys
    ensures forall i, j | 0 <= i < j < |NewSources(directory, sources)| ::
              NewSources(directory, sources)[i].attendee.attendeeId !=
              NewSources(directory, sources)[j].attendee.attendeeId
    ensures forall i | 0 <= i < |NewSources(directory, sources)| ::
              var info := NewSources(directory, sources)[i];
              info.attendee.attendeeId in AttendeeIds(sources)
              && var s := FirstFor(sources, info.attendee.attendeeId);
                 info.attendee == Attendee(s.attendeeId, s.externalUserId)
                 && info.maxBitrateKbps == s.maxBitrateKbps && info.streamId == s.streamId
  {
    if sources == [] {
      assert AttendeeIds(sources) == {};
    } else {
      var s, init := Last(sources), Init(sources);
      NewSourcesExact(directory, init);
      IdsSnoc(init, s);
      assert init + [s] == sources;
      var before, after := NewSources(directory, init), NewSources(directory, sources);
      if after != before {
        InfoIdsSnoc(before, InfoOf(s));
        forall i | 0 <= i < |before| ensures before[i].attendee.attendeeId != s.attendeeId {
          assert before[i].attendee.attendeeId in AttendeeIds(init);
        }
      }
    }
  }

  lemma {:induction false} InfoIdsSnoc(infos: seq<SourceInfo>, info: SourceInfo)
    ensures InfoIds(infos + [info]) == InfoIds(infos) + {info.attendee.attendeeId}
  {
    var all := infos + [info];
    assert all[|infos|] == info;
    forall a ensures a in InfoIds(all) <==> a in InfoIds(infos) + {info.attendee.attendeeId} {
      if a in InfoIds(infos) {
        var i :| 0 <= i < |infos| && infos[i].attendee.attendeeId == a;
        assert all[i].attendee.attendeeId == a;
      }
    }
  }

  lemma {:induction false} InfoIdsCons(info: SourceInfo, infos: seq<SourceInfo>)
    ensures InfoIds([info] + infos) == {info.attendee.attendeeId} + InfoIds(infos)
  {
    var all := [info] + infos;
    assert all[0] == info;
    forall a ensures a in InfoIds(all) <==> a in {info.attendee.attendeeId} + InfoIds(infos) {
      if a in InfoIds(infos) {
        var i :| 0 <= i < |infos| && infos[i].attendee.attendeeId == a;
        assert all[i + 1].attendee.attendeeId == a;
      }
    }
  }

  /** What observers are told of entries of the directory: names and bitrate as stored, no stream id. */
  predicate AsStored(directory: map<string, StreamConfig>, infos: seq<SourceInfo>) {
    forall i | 0 <= i < |infos| ::
      infos[i].attendee.attendeeId in directory
      && var entry := directory[infos[i].attendee.attendeeId];
         infos[i].attendee == entry.attendee && infos[i].maxBitrateKbps == entry.maxBitrateKbps
         && infos[i].streamId == 0
  }

  predicate Ordered(keys: seq<string>) {
    forall i, j | 0 <= i < j < |keys| :: LexLess(keys[i], keys[j])
  }

  predicate OrderedById(infos: seq<SourceInfo>) {
    forall i, j | 0 <= i < j < |infos| :: LexLess(infos[i].attendee.attendeeId, infos[j].attendee.attendeeId)
  }

  lemma {:induction false} DepartedIds(
    directory: map<string, StreamConfig>, sources: seq<IndexSource>, keys: seq<string>)
    requires KeyedById(directory) && forall k | k in keys :: k in directory
    ensures InfoIds(DepartedAmong(directory, sources, keys)) == (set k | k in keys) - AttendeeIds(sources)
  {
    if keys == [] {
      assert (set k | k in keys) == {} && InfoIds([]) == {};
    } else {
      var k, rest := keys[0], keys[1..];
      DepartedIds(directory, sources, rest);
      var later := DepartedAmong(directory, sources, rest);
      assert (set o | o in keys) == {k} + (set o | o in rest);
      InfoIdsCons(DepartedInfo(directory[k]), later);
      assert [] + later == later;
    }
  }

  lemma {:induction false} DepartedAsStored(
    directory: map<string, StreamConfig>, sources: seq<IndexSource>, keys: seq<string>)
    requires KeyedById(directory) && forall k | k in keys :: k in directory
    ensures AsStored(directory, DepartedAmong(directory, sources, keys))
  {
    if keys != [] {
      DepartedAsStored(directory, sources, keys[1..]);
    }
  }

  lemma {:induction false} DepartedOrdered(
    directory: map<string, StreamConfig>, sources: seq<IndexSource>, keys: seq<string>)
    requires KeyedById(directory) && Ordered(keys) && forall k | k in keys :: k in directory
    ensures OrderedById(DepartedAmong(directory, sources, keys))
  {
    if keys != [] {
      var k, rest := keys[0], keys[1..];
      DepartedOrdered(directory, sources, rest);
      DepartedIds(directory, sources, rest);
      var later := DepartedAmong(directory, sources, rest);
      forall i | 0 <= i < |later| ensures LexLess(k, later[i].attendee.attendeeId) {
        assert later[i].attendee.attendeeId in InfoIds(later);
        var j :| 0 <= j < |rest| && rest[j] == later[i].attendee.attendeeId;
        assert LexLess(keys[0], keys[j + 1]);
      }
    }
  }

  /** Unavailable sources are the known attendees the frame does not mention, in map order, named as stored. */
  lemma {:induction false} DepartedExact(directory: map<string, StreamConfig>, sources: seq<IndexSource>)
    requires KeyedById(directory)
    ensures InfoIds(Departed(directory, sources)) == directory.Keys - AttendeeIds(sources)
    ensures AsStored(directory, Departed(directory, sources)) && OrderedById(Departed(directory, sources))
  {
    AscendingVisits(directory.Keys);
    var keys := Ascending(directory.Keys);
    DepartedIds(directory, sources, keys);
    DepartedAsStored(directory, sources, keys);
    DepartedOrdered(directory, sources, keys);
    assert (set k | k in keys) == directory.Keys;
  }

  /**
   * The index diff is exact, even if the frame repeats an attendee. Afterwards the directory's keys are the frame's
   * attendees; newly available are those not known before, unavailable the known ones not in the frame.
   */
  lemma {:induction false} IndexDiffExact(directory: map<string, StreamConfig>, sources: seq<IndexSource>)
    requires KeyedById(directory)
    ensures var refreshed := Refreshed(directory, sources);
            && refreshed.Keys == AttendeeIds(sources)
            && KeyedById(refreshed)
            && InfoIds(NewSources(directory, sources)) == refreshed.Keys - directory.Keys
            && InfoIds(Departed(directory, sources)) == directory.Keys - refreshed.Keys
  {
    NewSourcesExact(directory, sources);
    DepartedExact(directory, sources);
    RefreshedKeys(directory, sources);
  }

  lemma {:induction false} RefreshedKeys(directory: map<string, StreamConfig>, sources: seq<IndexSource>)
    ensures Refreshed(directory, sources).Keys == AttendeeIds(sources) && KeyedById(Refreshed(directory, sources))
  {
    var kept := Remaining(directory, sources);
    assert kept.Keys + AttendeeIds(sources) == AttendeeIds(sources);
    forall a | a in AttendeeIds(sources) ensures EntryFor(kept, sources, a).attendee.attendeeId == a {
    }
  }

  /**
   * After an index frame, the entry of source `i`'s attendee takes its external id, group and bitrate from the
   * attendee's last source, and its stream id from the entry that introduced the attendee, in this frame or before.
   */
  lemma {:induction false} IndexEntriesExact(directory: map<string, StreamConfig>, sources: seq<IndexSource>, i: nat)
    requires i < |sources|
    ensures var refreshed, s := Refreshed(directory, sources), sources[i];
            && s.attendeeId in refreshed
            && var entry := refreshed[s.attendeeId];
            && ((forall j | i < j < |sources| :: sources[j].attendeeId != s.attendeeId) ==>
                  entry.attendee == Attendee(s.attendeeId, s.externalUserId)
                  && entry.groupId == s.groupId && entry.maxBitrateKbps == s.maxBitrateKbps)
            && (s.attendeeId in directory ==> entry.streamId == directory[s.attendeeId].streamId)
            && (s.attendeeId !in directory && (forall j | 0 <= j < i :: sources[j].attendeeId != s.attendeeId) ==>
                  entry.streamId == s.streamId)
  {
    var a, kept := sources[i].attendeeId, Remaining(directory, sources);
    LastAndFirst(sources, i);
    assert Refreshed(directory, sources)[a] == EntryFor(kept, sources, a);
  }

  // ----- The directory over runs -----

  /** Everything but an index frame and a leave acknowledgement leaves the directory alone. */
  lemma {:induction false} DirectoryKept(cfg: Config, log: Log, x: Input)
    requires !x.IndexFrame? && !x.LeaveAckFrame?
    ensures Step(cfg, log, x).client.directory == log.client.directory
  {
    if x.SubscribeAckFrame? && x.subAck.sdpAnswer.Some? {
      AllocateOnlyLocal(log.client, Sections(x.subAck.sdpAnswer.value), x.subAck.allocations, 0);
    }
  }

  lemma {:induction false} DirectoryKeyed(cfg: Config, inputs: seq<Input>)
    ensures KeyedById(Run(cfg, inputs).client.directory)
  {
    if inputs != [] {
      DirectoryKeyed(cfg, Init(inputs));
      var log, x := Run(cfg, Init(inputs)), Last(inputs);
      if x.IndexFrame? {
        if Accepts(log.client, x.index) {
          RefreshedKeys(log.client.directory, x.index.sources);
        }
      } else if !x.LeaveAckFrame? {
        DirectoryKept(cfg, log, x);
      }
    }
  }

  // ----- The observer's view -----

  /** The attendees an observer who folds the video events believes to have video. `Started` lists the initial ones. */
  function View(events: seq<Event>): set<string> {
    if events == [] then {}
    else match Last(events)
      case Started(_, sources) => InfoIds(sources)
      case Available(sources) => View(Init(events)) + InfoIds(sources)
      case Unavailable(gone) => View(Init(events)) - InfoIds(gone)
      case _ => View(Init(events))
  }

  lemma {:induction false} ViewSnoc(events: seq<Event>, e: Event)
    ensures View(events + [e]) ==
            match e
            case Started(_, sources) => InfoIds(sources)
            case Available(sources) => View(events) + InfoIds(sources)
            case Unavailable(gone) => View(events) - InfoIds(gone)
            case _ => View(events)
  {
    assert Init(events + [e]) == events;
  }

  predicate InSync(log: Log) {
    View(log.events) == log.client.directory.Keys
  }

  /**
   * The first index of a session must bring only attendees the directory does not hold yet, or, when it arrives after
   * the credentials expired and no event is sent, exactly those it holds; a leave acknowledgement must find the
   * directory empty.
   */
  predicate SyncSafe(c: Client, x: Input) {
    match x
    case IndexFrame(index, now) =>
      Accepts(c, index) && !c.hasReceivedFirstIndex ==>
        if Expired(c, now) then AttendeeIds(index.sources) == c.directory.Keys
        else AttendeeIds(index.sources) !! c.directory.Keys
    case LeaveAckFrame => c.directory == map[]
    case _ => true
  }

  lemma {:induction false} ViewAfterIndex(events: seq<Event>, c: Client, index: Index, now: int)
    requires Accepts(c, index) && KeyedById(c.directory)
    ensures View(events + IndexEvents(c, index, now)) ==
            if c.hasReceivedFirstIndex
            then View(events) + (AttendeeIds(index.sources) - c.directory.Keys)
                - (c.directory.Keys - AttendeeIds(index.sources))
            else if Expired(c, now) then View(events)
            else AttendeeIds(index.sources) - c.directory.Keys
  {
    var introduced, gone := NewSources(c.directory, index.sources), Departed(c.directory, index.sources);
    NewSourcesExact(c.directory, index.sources);
    DepartedExact(c.directory, index.sources);
    ViewSnoc(events, Started(c.turnCredentials, introduced));
    ViewAfterChange(events, introduced, gone);
    assert events + [] == events;
  }

  lemma {:induction false} ViewAfterChange(events: seq<Event>, introduced: seq<SourceInfo>, gone: seq<SourceInfo>)
    ensures View(events + ((if introduced == [] then [] else [Available(introduced)])
                           + (if gone == [] then [] else [Unavailable(gone)])))
         == (View(events) + InfoIds(introduced)) - InfoIds(gone)
  {
    NoInfos(introduced);
    var one := if introduced == [] then [] else [Available(introduced)];
    var two := if gone == [] then [] else [Unavailable(gone)];
    ViewSnoc(events, Available(introduced));
    assert View(events + one) == View(events) + InfoIds(introduced) by {
      assert events + [] == events;
    }
    ViewSnoc(events + one, Unavailable(gone));
    AppendAssociative(events, one, two);
    assert (events + one) + [] == events + one;
    NoInfos(gone);
  }

  /** One input keeps the view in step with the directory exactly when it is safe in the state it meets. */
  lemma {:induction false} SyncStep(cfg: Config, log: Log, x: Input)
    requires InSync(log) && KeyedById(log.client.directory)
    ensures InSync(Step(cfg, log, x)) <==> SyncSafe(log.client, x)
  {
    if x.IndexFrame? {
      if Accepts(log.client, x.index) {
        ViewAfterIndex(log.events, log.client, x.index, x.now);
        IndexDiffExact(log.client.directory, x.index.sources);
      } else {
        assert log.events + [] == log.events;
      }
    } else {
      OtherEventsKeepView(cfg, log, x);
      if x.LeaveAckFrame? {
        assert log.client.directory.Keys == {} <==> log.client.directory == map[];
      } else {
        DirectoryKept(cfg, log, x);
      }
    }
  }

  predicate VideoEvent(e: Event) {
    e.Started? || e.Available? || e.Unavailable?
  }

  lemma {:induction false} OtherEventKeepsView(before: seq<Event>, after: seq<Event>)
    requires after == before || (after != [] && after == before + [Last(after)] && !VideoEvent(Last(after)))
    ensures View(after) == View(before)
  {
    if after != before {
      ViewSnoc(before, Last(after));
    }
  }

  lemma {:induction false} OtherEventsKeepView(cfg: Config, log: Log, x: Input)
    requires !x.IndexFrame?
    ensures View(Step(cfg, log, x).events) == View(log.events)
  {
    if x.DataMessageFrame? {
      DataEventsKeepView(log.events, x.payloads);
    } else {
      OtherEventKeepsView(log.events, Step(cfg, log, x).events);
    }
  }

  lemma {:induction false} DataEventsKeepView(events: seq<Event>, payloads: seq<DataPayload>)
    ensures View(events + DataEvents(payloads)) == View(events)
  {
    var received, throttled := ReceivedMessages(payloads), ThrottledMessages(payloads);
    var one := if received == [] then [] else [DataReceived(received)];
    var two := if throttled == [] then [] else [DataFailed(throttled)];
    OtherEventKeepsView(events, events + one);
    OtherEventKeepsView(events + one, (events + one) + two);
    AppendAssociative(events, one, two);
  }

  ghost predicate InSyncThroughout(cfg: Config, inputs: seq<Input>) {
    InSync(Run(cfg, inputs)) && (inputs == [] || InSyncThroughout(cfg, Init(inputs)))
  }

  predicate SyncSafeThroughout(cfg: Config, inputs: seq<Input>) {
    inputs == [] || (SyncSafeThroughout(cfg, Init(inputs)) && SyncSafe(Run(cfg, Init(inputs)).client, Last(inputs)))
  }

  /** The observer's view equals the directory after every input of a run if and only if every input is safe. */
  lemma {:induction false} ObserverView(cfg: Config, inputs: seq<Input>)
    ensures InSyncThroughout(cfg, inputs) <==> SyncSafeThroughout(cfg, inputs)
  {
    if inputs != [] {
      ObserverView(cfg, Init(inputs));
      DirectoryKeyed(cfg, Init(inputs));
      if InSyncThroughout(cfg, Init(inputs)) {
        SyncStep(cfg, Run(cfg, Init(inputs)), Last(inputs));
      }
    }
  }

  /** The attendees of the last index frame a run accepted. */
  function LastAcceptedIds(cfg: Config, inputs: seq<Input>): set<string> {
    if inputs == [] then {}
    else if Last(inputs).IndexFrame? && Accepts(Run(cfg, Init(inputs)).client, Last(inputs).index)
    then AttendeeIds(Last(inputs).index.sources)
    else LastAcceptedIds(cfg, Init(inputs))
  }

  /**
   * The input is the first accepted index frame since the transport closed; it meets no old entries and live
   * credentials.
   */
  predicate StartsCleanly(c: Client, x: Input) {
    x.IndexFrame? && Accepts(c, x.index) && !c.hasReceivedFirstIndex && c.directory == map[] && !Expired(c, x.now)
  }

  predicate WithinSession(inputs: seq<Input>) {
    forall i | 0 <= i < |inputs| :: !inputs[i].SignalingClosed? && !inputs[i].LeaveAckFrame?
  }

  /**
   * A session that starts cleanly keeps its observers right: after any earlier run, and until the transport closes or a
   * leave is acknowledged, the view is the directory, whose keys are the attendees of the last accepted index frame.
   */
  lemma {:induction false} CleanSessionView(cfg: Config, before: seq<Input>, first: Input, more: seq<Input>)
    requires StartsCleanly(Run(cfg, before).client, first) && WithinSession(more)
    ensures var inputs := before + [first] + more;
            && InSync(Run(cfg, inputs))
            && Run(cfg, inputs).client.directory.Keys == LastAcceptedIds(cfg, inputs)
            && Run(cfg, inputs).client.hasReceivedFirstIndex
    decreases |more|
  {
    var inputs := before + [first] + more;
    var log, x := Run(cfg, Init(inputs)), Last(inputs);
    if more == [] {
      assert Init(inputs) == before && x == first;
      ViewAfterIndex(log.events, log.client, x.index, x.now);
      IndexDiffExact(log.client.directory, x.index.sources);
    } else {
      assert Init(inputs) == before + [first] + Init(more) && x == more[|more| - 1];
      CleanSessionView(cfg, before, first, Init(more));
      DirectoryKeyed(cfg, Init(inputs));
      SyncStep(cfg, log, x);
      FirstIndexFlag(cfg, log, x);
      if x.IndexFrame? {
        if Accepts(log.client, x.index) {
          IndexDiffExact(log.client.directory, x.index.sources);
        }
      } else {
        DirectoryKept(cfg, log, x);
      }
    }
  }

  /** Only a transport close forgets that an index frame was received. */
  lemma {:induction false} FirstIndexFlag(cfg: Config, log: Log, x: Input)
    ensures Step(cfg, log, x).client.hasReceivedFirstIndex <==>
            !x.SignalingClosed?
            && (log.client.hasReceivedFirstIndex || (x.IndexFrame? && Accepts(log.client, x.index)))
  {
    if x.SubscribeAckFrame? && x.subAck.sdpAnswer.Some? {
      AllocateOnlyLocal(log.client, Sections(x.subAck.sdpAnswer.value), x.subAck.allocations, 0);
    }
  }

  /**
   * Reconnecting hides known sources: a transport close keeps the directory, so when the next session's first index
   * brings attendees known from before, `Started` lists none of them.
   */
  lemma {:induction false} StartedOmitsKnownSources(cfg: Config, log: Log, index: Index, now: int)
    requires Accepts(log.client, index) && KeyedById(log.client.directory)
    requires !log.client.hasReceivedFirstIndex && !Expired(log.client, now)
    requires AttendeeIds(index.sources) <= log.client.directory.Keys
    ensures var after := Step(cfg, log, IndexFrame(index, now));
            && after.events == log.events + [Started(log.client.turnCredentials, [])]
            && after.client.directory.Keys == AttendeeIds(index.sources)
            && (InSync(after) <==> index.sources == [])
  {
    NewSourcesExact(log.client.directory, index.sources);
    var introduced := NewSources(log.client.directory, index.sources);
    NoInfos(introduced);
    ViewAfterIndex(log.events, log.client, index, now);
    IndexDiffExact(log.client.directory, index.sources);
    if index.sources != [] {
      assert index.sources[0].attendeeId in AttendeeIds(index.sources);
    }
  }
}
