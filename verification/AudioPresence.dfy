/** What attendee presence and mute events tell an observer, over whole runs of audio frames. */
module AudioPresence {
  import opened Common
  import opened AudioModel

  // ----- Who is in the meeting, by the events and by the streams -----

  /** The last presence event about `a` is Joined. */
  predicate Present(events: seq<AudioEvent>, a: string) {
    if events == [] then false
    else match Last(events)
      case Joined(who) => who.attendeeId == a || Present(Init(events), a)
      case Left(who) => who.attendeeId != a && Present(Init(events), a)
      case Dropped(who) => who.attendeeId != a && Present(Init(events), a)
      case _ => Present(Init(events), a)
  }

  predicate Live(s: Adapter, a: string) {
    exists id | id in s.streamToAttendee :: s.streamToAttendee[id] == a
  }

  /** `a` has a live stream besides `id`. */
  predicate LiveBeside(s: Adapter, a: string, id: u32) {
    exists o | o in s.streamToAttendee :: s.streamToAttendee[o] == a && o != id
  }

  ghost predicate Agrees(log: AudioLog) {
    forall a :: Present(log.events, a) <==> Live(log.adapter, a)
  }

  ghost predicate Listed(s: Adapter) {
    forall a | a in s.attendeeToStream :: Live(s, a)
  }

  /** Binding `id` to `a` takes the only live stream of another attendee. */
  predicate TakesLastStream(s: Adapter, id: u32, a: string) {
    id in s.streamToAttendee && s.streamToAttendee[id] != a && !LiveBeside(s, s.streamToAttendee[id], id)
  }

  /** The newest stream of an attendee leaves while an older one is live. */
  predicate LeavesNewestFirst(s: Adapter, id: u32) {
    id in s.streamToAttendee
    && !HasNewerStream(s, s.streamToAttendee[id], id)
    && LiveBeside(s, s.streamToAttendee[id], id)
  }

  predicate RosterSafe(s: Adapter, x: AudioInput) {
    x.Stream? ==>
      && (x.info.Binds() ==> !TakesLastStream(s, x.info.streamId.value, x.info.attendeeId.value))
      && (x.info.Leaves() ==> !LeavesNewestFirst(s, x.info.streamId.value))
  }

  lemma {:induction false} PresentSnoc(events: seq<AudioEvent>, e: AudioEvent, a: string)
    ensures Present(events + [e], a) <==>
            if e.Joined? && e.attendee.attendeeId == a then true
            else if (e.Left? || e.Dropped?) && e.attendee.attendeeId == a then false
            else Present(events, a)
  {
    assert Init(events + [e]) == events;
  }

  lemma {:induction false} BindRoster(log: AudioLog, id: u32, who: Attendee)
    requires Agrees(log) && Listed(log.adapter)
    ensures Agrees(Bind(log, id, who)) <==> !TakesLastStream(log.adapter, id, who.attendeeId)
    ensures Agrees(Bind(log, id, who)) ==> Listed(Bind(log, id, who).adapter)
  {
    var s, after := log.adapter, Bind(log, id, who);
    assert after.adapter.streamToAttendee[id] == who.attendeeId;
    forall a
      ensures Present(after.events, a) <==> a == who.attendeeId || Present(log.events, a)
    {
      PresentSnoc(log.events, Joined(who), a);
    }
    forall a | a != who.attendeeId
      ensures Live(after.adapter, a) <==> LiveBeside(s, a, id)
    {
      if LiveBeside(s, a, id) {
        var o :| o in s.streamToAttendee && s.streamToAttendee[o] == a && o != id;
        assert after.adapter.streamToAttendee[o] == a;
      }
    }
    if TakesLastStream(s, id, who.attendeeId) {
      var b := s.streamToAttendee[id];
      assert Live(s, b) && !Live(after.adapter, b) && Present(after.events, b);
    } else {
      forall a ensures Present(after.events, a) <==> Live(after.adapter, a) {
        if a != who.attendeeId && Live(s, a) {
          var o :| o in s.streamToAttendee && s.streamToAttendee[o] == a;
          assert o != id ==> LiveBeside(s, a, id);
        }
      }
    }
  }

  lemma {:induction false} SetMutedRoster(log: AudioLog, id: u32, muted: bool)
    ensures var after := SetMuted(log, id, muted);
            && (Agrees(after) <==> Agrees(log))
            && (Listed(after.adapter) <==> Listed(log.adapter))
  {
    var after := SetMuted(log, id, muted);
    forall a
      ensures Present(after.events, a) <==> Present(log.events, a)
      ensures Live(after.adapter, a) <==> Live(log.adapter, a)
    {
      if after.events != log.events {
        PresentSnoc(log.events, Last(after.events), a);
      }
    }
  }

  lemma {:induction false} LeaveRoster(log: AudioLog, id: u32, dropped: bool)
    requires Agrees(log) && Listed(log.adapter)
    ensures Agrees(Leave(log, id, dropped)) <==> !LeavesNewestFirst(log.adapter, id)
    ensures Agrees(Leave(log, id, dropped)) ==> Listed(Leave(log, id, dropped).adapter)
  {
    var s, after := log.adapter, Leave(log, id, dropped);
    if id in s.streamToAttendee {
      var a := s.streamToAttendee[id];
      assert Live(s, a);
      forall b ensures Live(after.adapter, b) <==> LiveBeside(s, b, id) {
        if LiveBeside(s, b, id) {
          var o :| o in s.streamToAttendee && s.streamToAttendee[o] == b && o != id;
          assert after.adapter.streamToAttendee[o] == b;
        }
      }
      forall b | b != a ensures Live(after.adapter, b) <==> Live(s, b) {
      }
      forall b ensures Present(after.events, b) <==> Present(log.events, b) && (b == a ==> HasNewerStream(s, a, id)) {
        if after.events != log.events {
          PresentSnoc(log.events, Last(after.events), b);
        }
      }
      assert HasNewerStream(s, a, id) ==> LiveBeside(s, a, id);
      assert Present(after.events, a) <==> HasNewerStream(s, a, id);
      assert Live(after.adapter, a) <==> LiveBeside(s, a, id);
    }
  }

  /** One entry keeps events and streams in agreement exactly when it is safe in the state it meets. */
  lemma {:induction false} RosterStep(log: AudioLog, x: AudioInput)
    requires Agrees(log) && Listed(log.adapter)
    ensures Agrees(AudioStep(log, x)) <==> RosterSafe(log.adapter, x)
    ensures Agrees(AudioStep(log, x)) ==> Listed(AudioStep(log, x).adapter)
  {
    match x
    case Level(level) =>
      LevelKeepsRoster(log, level);
      forall a ensures Live(LevelStep(log, level).adapter, a) <==> Live(log.adapter, a) {
      }
    case Stream(e) =>
      if e.streamId.Some? {
        var id := e.streamId.value;
        var bound := if e.attendeeId.Some? then Bind(log, id, e.AttendeeOf()) else log;
        if e.attendeeId.Some? {
          BindRoster(log, id, e.AttendeeOf());
        }
        if e.muted.Some? {
          SetMutedRoster(bound, id, e.muted.value);
        }
        if e.Leaves() {
          LeaveRoster(log, id, e.dropped == Some(true));
        }
      }
  }

  lemma LevelKeepsRoster(log: AudioLog, e: LevelInfo)
    ensures var after := LevelStep(log, e);
            && after.events == log.events
            && after.adapter.(volume := log.adapter.volume, signal := log.adapter.signal) == log.adapter
  {
  }

  /** Agreement after every prefix of the run. */
  ghost predicate AgreesThroughout(inputs: seq<AudioInput>) {
    Agrees(AudioRun(inputs)) && (inputs == [] || AgreesThroughout(Init(inputs)))
  }

  /** Every entry is safe in the state it meets. */
  predicate SafeThroughout(inputs: seq<AudioInput>) {
    inputs == [] || (SafeThroughout(Init(inputs)) && RosterSafe(AudioRun(Init(inputs)).adapter, Last(inputs)))
  }

  /**
   * Roster agreement. Over any run, with no assumption on the entries: after every entry an attendee's last presence
   * event is Joined exactly for the attendees with a live stream, if and only if no entry binds another attendee's only
   * live stream and no leave removes an attendee's newest stream while an older one is live.
   */
  lemma {:induction false} RosterAgreement(inputs: seq<AudioInput>)
    ensures AgreesThroughout(inputs) <==> SafeThroughout(inputs)
    ensures AgreesThroughout(inputs) ==> Listed(AudioRun(inputs).adapter)
  {
    if inputs != [] {
      RosterAgreement(Init(inputs));
      if AgreesThroughout(Init(inputs)) {
        RosterStep(AudioRun(Init(inputs)), Last(inputs));
      }
    }
  }

  // ----- The input discipline the source comments state -----

  /** The entry binds a live stream to a second attendee. */
  predicate Rebinds(s: Adapter, x: AudioInput) {
    x.Stream? && x.info.Binds() && x.info.streamId.value in s.streamToAttendee
    && s.streamToAttendee[x.info.streamId.value] != x.info.attendeeId.value
  }

  predicate NeverRebinds(inputs: seq<AudioInput>) {
    inputs == [] || (NeverRebinds(Init(inputs)) && !Rebinds(AudioRun(Init(inputs)).adapter, Last(inputs)))
  }

  /** The entry is not the leave of a stream whose attendee has an older live stream. */
  predicate LeavesOldest(s: Adapter, x: AudioInput) {
    x.Stream? && x.info.Leaves() && x.info.streamId.value in s.streamToAttendee ==>
      forall o | o in s.streamToAttendee && s.streamToAttendee[o] == s.streamToAttendee[x.info.streamId.value] ::
        x.info.streamId.value <= o
  }

  predicate OldestLeavesFirst(inputs: seq<AudioInput>) {
    inputs == [] || (OldestLeavesFirst(Init(inputs)) && LeavesOldest(AudioRun(Init(inputs)).adapter, Last(inputs)))
  }

  /** Under the discipline "ids are not reused and order is guaranteed" the roster agrees after every entry. */
  lemma {:induction false} OrderedStreamsAgree(inputs: seq<AudioInput>)
    requires NeverRebinds(inputs) && OldestLeavesFirst(inputs)
    ensures AgreesThroughout(inputs) && SafeThroughout(inputs)
  {
    if inputs != [] {
      OrderedStreamsAgree(Init(inputs));
      var s, x := AudioRun(Init(inputs)).adapter, Last(inputs);
      if x.Stream? && x.info.Leaves() {
        var id := x.info.streamId.value;
        assert LeavesOldest(s, x);
        assert !LeavesNewestFirst(s, id);
      }
    }
    RosterAgreement(inputs);
  }

  function Binding(id: u32, a: string): AudioInput {
    Stream(StreamInfo(Some(id), Some(a), None, None, None))
  }

  function Leaving(id: u32): AudioInput {
    Stream(StreamInfo(Some(id), None, None, None, None))
  }

  /** Out of order the roster goes wrong: the newest of two streams leaves and the attendee is reported gone. */
  lemma {:induction false} NewestFirstLosesAttendee(a: string, id: u32, newer: u32)
    requires id < newer
    ensures var inputs := [Binding(id, a), Binding(newer, a), Leaving(newer)];
            && !Present(AudioRun(inputs).events, a)
            && Live(AudioRun(inputs).adapter, a)
  {
    var two := [Binding(id, a), Binding(newer, a)];
    TwoStreams(a, id, newer);
    AudioRunSnoc(two, Leaving(newer));
    assert two + [Leaving(newer)] == [Binding(id, a), Binding(newer, a), Leaving(newer)];
    NewestLeaves(AudioRun(two), a, id, newer);
  }

  lemma {:induction false} TwoStreams(a: string, id: u32, newer: u32)
    ensures var inputs := [Binding(id, a), Binding(newer, a)];
            AudioRun(inputs).adapter.streamToAttendee == map[id := a, newer := a]
  {
    assert AudioRun([]) == START;
    AudioRunSnoc([], Binding(id, a));
    AudioRunSnoc([Binding(id, a)], Binding(newer, a));
    assert [] + [Binding(id, a)] == [Binding(id, a)];
    assert [Binding(id, a)] + [Binding(newer, a)] == [Binding(id, a), Binding(newer, a)];
  }

  lemma {:induction false} NewestLeaves(log: AudioLog, a: string, id: u32, newer: u32)
    requires id < newer && log.adapter.streamToAttendee == map[id := a, newer := a]
    ensures var after := AudioStep(log, Leaving(newer));
            !Present(after.events, a) && Live(after.adapter, a)
  {
    var after := AudioStep(log, Leaving(newer));
    assert !HasNewerStream(log.adapter, a, newer);
    PresentSnoc(log.events, Last(after.events), a);
    assert after.adapter.streamToAttendee[id] == a;
  }

  // ----- No ghost attendees -----

  ghost predicate NoGhost(log: AudioLog) {
    forall a | Present(log.events, a) :: Live(log.adapter, a)
  }

  /** One entry creates a ghost exactly when it binds the only live stream of another attendee shown as present. */
  lemma {:induction false} GhostStep(log: AudioLog, x: AudioInput)
    requires NoGhost(log)
    ensures NoGhost(AudioStep(log, x)) <==>
            !(x.Stream? && x.info.Binds()
              && TakesLastStream(log.adapter, x.info.streamId.value, x.info.attendeeId.value)
              && Present(log.events, log.adapter.streamToAttendee[x.info.streamId.value]))
  {
    match x
    case Level(level) =>
      LevelKeepsRoster(log, level);
      forall a ensures Live(LevelStep(log, level).adapter, a) <==> Live(log.adapter, a) {
      }
    case Stream(e) =>
      if e.streamId.Some? {
        var id := e.streamId.value;
        var bound := if e.attendeeId.Some? then Bind(log, id, e.AttendeeOf()) else log;
        if e.attendeeId.Some? {
          BindGhost(log, id, e.AttendeeOf());
        }
        if e.muted.Some? {
          SetMutedGhost(bound, id, e.muted.value);
        }
        if e.Leaves() {
          LeaveGhost(log, id, e.dropped == Some(true));
        }
      }
  }

  lemma {:induction false} BindGhost(log: AudioLog, id: u32, who: Attendee)
    requires NoGhost(log)
    ensures NoGhost(Bind(log, id, who)) <==>
            !(TakesLastStream(log.adapter, id, who.attendeeId) && Present(log.events, log.adapter.streamToAttendee[id]))
  {
    var s, after := log.adapter, Bind(log, id, who);
    assert after.adapter.streamToAttendee[id] == who.attendeeId;
    forall a | a != who.attendeeId
      ensures Present(after.events, a) <==> Present(log.events, a)
      ensures Live(after.adapter, a) <==> LiveBeside(s, a, id)
    {
      PresentSnoc(log.events, Joined(who), a);
      if LiveBeside(s, a, id) {
        var o :| o in s.streamToAttendee && s.streamToAttendee[o] == a && o != id;
        assert after.adapter.streamToAttendee[o] == a;
      }
    }
    if TakesLastStream(s, id, who.attendeeId) && Present(log.events, s.streamToAttendee[id]) {
      assert Present(after.events, s.streamToAttendee[id]) && !Live(after.adapter, s.streamToAttendee[id]);
    } else {
      forall a | Present(after.events, a) ensures Live(after.adapter, a) {
        if a != who.attendeeId {
          var o :| o in s.streamToAttendee && s.streamToAttendee[o] == a;
          assert o != id ==> LiveBeside(s, a, id);
        }
      }
    }
  }

  lemma {:induction false} SetMutedGhost(log: AudioLog, id: u32, muted: bool)
    ensures NoGhost(SetMuted(log, id, muted)) <==> NoGhost(log)
  {
    var after := SetMuted(log, id, muted);
    forall a
      ensures Present(after.events, a) <==> Present(log.events, a)
      ensures Live(after.adapter, a) <==> Live(log.adapter, a)
    {
      if after.events != log.events {
        PresentSnoc(log.events, Last(after.events), a);
      }
    }
  }

  lemma {:induction false} LeaveGhost(log: AudioLog, id: u32, dropped: bool)
    requires NoGhost(log)
    ensures NoGhost(Leave(log, id, dropped))
  {
    var s, after := log.adapter, Leave(log, id, dropped);
    if id in s.streamToAttendee {
      forall b | Present(after.events, b) ensures Live(after.adapter, b) {
        if after.events != log.events {
          PresentSnoc(log.events, Last(after.events), b);
        }
        if b == s.streamToAttendee[id] {
          var o :| o in s.streamToAttendee && s.streamToAttendee[o] == b && o > id;
          assert after.adapter.streamToAttendee[o] == b;
        } else {
          var o :| o in s.streamToAttendee && s.streamToAttendee[o] == b;
          assert after.adapter.streamToAttendee[o] == b;
        }
      }
    }
  }

  /**
   * Leaves may come in any order: as long as no live stream is rebound, whoever is shown as present has a live stream.
   */
  lemma {:induction false} NoGhostAttendees(inputs: seq<AudioInput>)
    requires NeverRebinds(inputs)
    ensures NoGhost(AudioRun(inputs))
  {
    if inputs != [] {
      NoGhostAttendees(Init(inputs));
      GhostStep(AudioRun(Init(inputs)), Last(inputs));
    }
  }

  /** Every attendee-to-stream entry names a live stream of that attendee. */
  predicate PointsBack(s: Adapter) {
    forall a | a in s.attendeeToStream ::
      s.attendeeToStream[a] in s.streamToAttendee && s.streamToAttendee[s.attendeeToStream[a]] == a
  }

  /**
   * As long as no live stream is rebound, attendee and stream maps point at each other, whatever the order of leaves.
   */
  lemma {:induction false} EntriesPointBack(inputs: seq<AudioInput>)
    requires NeverRebinds(inputs)
    ensures PointsBack(AudioRun(inputs).adapter)
  {
    if inputs != [] {
      EntriesPointBack(Init(inputs));
      PointsBackStep(AudioRun(Init(inputs)), Last(inputs));
    }
  }

  /** One entry breaks it exactly when it binds the stream another attendee's entry names. */
  lemma {:induction false} PointsBackStep(log: AudioLog, x: AudioInput)
    requires PointsBack(log.adapter)
    ensures PointsBack(AudioStep(log, x).adapter) <==>
            !(Rebinds(log.adapter, x)
              && var b := log.adapter.streamToAttendee[x.info.streamId.value];
                 b in log.adapter.attendeeToStream && log.adapter.attendeeToStream[b] == x.info.streamId.value)
  {
    match x
    case Level(level) => LevelKeepsRoster(log, level);
    case Stream(e) =>
      if e.Binds() {
        var s, id, a, after := log.adapter, e.streamId.value, e.attendeeId.value, AudioStep(log, x).adapter;
        assert after.attendeeToStream == s.attendeeToStream[a := id];
        assert after.streamToAttendee == s.streamToAttendee[id := a];
        if id in s.streamToAttendee && s.streamToAttendee[id] != a {
          var b := s.streamToAttendee[id];
          if b in s.attendeeToStream && s.attendeeToStream[b] == id {
            assert after.attendeeToStream[b] == id && after.streamToAttendee[id] != b;
          }
        }
      }
  }

  // ----- Mute events -----

  /** The mute events about `a`, true for Muted. */
  function MuteEvents(events: seq<AudioEvent>, a: string): seq<bool> {
    if events == [] then []
    else
      var e, before := Last(events), MuteEvents(Init(events), a);
      if (e.Muted? || e.Unmuted?) && e.attendee.attendeeId == a then before + [e.Muted?] else before
  }

  /** Muted, Unmuted, Muted, ... */
  predicate Alternates(mutes: seq<bool>) {
    forall i | 0 <= i < |mutes| :: mutes[i] <==> i % 2 == 0
  }

  ghost predicate MuteAgrees(log: AudioLog) {
    forall a :: Alternates(MuteEvents(log.events, a))
             && (StoredMute(log.adapter, a) <==> |MuteEvents(log.events, a)| % 2 == 1)
  }

  lemma {:induction false} MuteEventsSnoc(events: seq<AudioEvent>, e: AudioEvent, a: string)
    ensures MuteEvents(events + [e], a) ==
            if (e.Muted? || e.Unmuted?) && e.attendee.attendeeId == a then MuteEvents(events, a) + [e.Muted?]
            else MuteEvents(events, a)
  {
    assert Init(events + [e]) == events;
  }

  lemma AlternatesSnoc(mutes: seq<bool>, m: bool)
    requires Alternates(mutes) && (m <==> |mutes| % 2 == 0)
    ensures Alternates(mutes + [m])
  {
  }

  lemma {:induction false} MuteStep(log: AudioLog, id: u32, muted: bool)
    requires MuteAgrees(log)
    ensures MuteAgrees(SetMuted(log, id, muted))
  {
    var after := SetMuted(log, id, muted);
    forall a
      ensures Alternates(MuteEvents(after.events, a))
      ensures StoredMute(after.adapter, a) <==> |MuteEvents(after.events, a)| % 2 == 1
    {
      var mutes := MuteEvents(log.events, a);
      assert Alternates(mutes) && (StoredMute(log.adapter, a) <==> |mutes| % 2 == 1);
      if after.events != log.events {
        MuteEventsSnoc(log.events, Last(after.events), a);
        if Last(after.events).attendee.attendeeId == a {
          AlternatesSnoc(mutes, muted);
        }
      }
    }
  }

  lemma {:induction false} PresenceKeepsMute(log: AudioLog, after: AudioLog)
    requires MuteAgrees(log) && after.adapter.muted == log.adapter.muted
    requires after.events == log.events
          || (after.events != [] && Init(after.events) == log.events
              && !Last(after.events).Muted? && !Last(after.events).Unmuted?)
    ensures MuteAgrees(after)
  {
    forall a
      ensures MuteEvents(after.events, a) == MuteEvents(log.events, a)
      ensures StoredMute(after.adapter, a) <==> StoredMute(log.adapter, a)
    {
      if after.events != log.events {
        MuteEventsSnoc(log.events, Last(after.events), a);
        assert log.events + [Last(after.events)] == after.events;
      }
    }
  }

  /**
   * Mute events alternate. Over any run, for every attendee: the mute events are Muted, Unmuted, Muted, ... and their
   * number is odd exactly while the stored state is muted, across leaves and re-joins.
   */
  lemma {:induction false} MuteAlternation(inputs: seq<AudioInput>)
    ensures MuteAgrees(AudioRun(inputs))
  {
    if inputs != [] {
      MuteAlternation(Init(inputs));
      var log, x := AudioRun(Init(inputs)), Last(inputs);
      match x
      case Level(level) =>
        LevelKeepsRoster(log, level);
        PresenceKeepsMute(log, LevelStep(log, level));
      case Stream(e) =>
        if e.streamId.Some? {
          var id := e.streamId.value;
          var bound := if e.attendeeId.Some? then Bind(log, id, e.AttendeeOf()) else log;
          PresenceKeepsMute(log, bound);
          if e.muted.Some? {
            MuteStep(bound, id, e.muted.value);
          }
          if e.Leaves() {
            PresenceKeepsMute(log, Leave(log, id, e.dropped == Some(true)));
          }
        }
    }
  }

  // ----- Where stored names come from -----

  /** The attendee a run last bound stream `id` to, unless the stream has left since. */
  function LastBinding(inputs: seq<AudioInput>, id: u32): Option<Attendee> {
    if inputs == [] then None
    else
      var x := Last(inputs);
      if x.Stream? && x.info.streamId == Some(id) && x.info.Binds() then Some(NamedBy(x.info))
      else if x.Stream? && x.info.streamId == Some(id) && x.info.Leaves() then None
      else LastBinding(Init(inputs), id)
  }

  /** The attendee an entry names, with an empty external id if it has none. */
  function NamedBy(e: StreamInfo): Attendee
    requires e.attendeeId.Some?
  {
    Attendee(e.attendeeId.value, if e.externalUserId.Some? then e.externalUserId.value else "")
  }

  function OwnerIfLive(s: Adapter, id: u32): Option<Attendee> {
    if id in s.streamToAttendee then Some(Owner(s, id)) else None
  }

  predicate SameStreams(s: Adapter) {
    s.streamToExternal.Keys == s.streamToAttendee.Keys
  }

  ghost predicate BindingsKept(s: Adapter, inputs: seq<AudioInput>) {
    SameStreams(s) && forall id: u32 :: LastBinding(inputs, id) == OwnerIfLive(s, id)
  }

  lemma BindOwner(log: AudioLog, id: u32, who: Attendee, other: u32)
    requires SameStreams(log.adapter)
    ensures var after := Bind(log, id, who).adapter;
            SameStreams(after) && OwnerIfLive(after, other) ==
                if other == id then Some(who) else OwnerIfLive(log.adapter, other)
  {
  }

  lemma SetMutedOwner(log: AudioLog, id: u32, muted: bool, other: u32)
    requires SameStreams(log.adapter)
    ensures var after := SetMuted(log, id, muted).adapter;
            SameStreams(after) && OwnerIfLive(after, other) == OwnerIfLive(log.adapter, other)
  {
  }

  lemma LeaveOwner(log: AudioLog, id: u32, dropped: bool, other: u32)
    requires SameStreams(log.adapter)
    ensures var after := Leave(log, id, dropped).adapter;
            SameStreams(after) && OwnerIfLive(after, other) ==
                if other == id then None else OwnerIfLive(log.adapter, other)
  {
  }

  lemma {:induction false} StepOwner(log: AudioLog, x: AudioInput, other: u32)
    requires SameStreams(log.adapter)
    ensures var after := AudioStep(log, x).adapter;
            && SameStreams(after)
            && OwnerIfLive(after, other) ==
               if x.Stream? && x.info.streamId == Some(other) && x.info.Binds() then Some(x.info.AttendeeOf())
               else if x.Stream? && x.info.streamId == Some(other) && x.info.Leaves() then None
               else OwnerIfLive(log.adapter, other)
  {
    if x.Level? {
      LevelKeepsRoster(log, x.level);
    } else if x.info.streamId.Some? {
      var e, id := x.info, x.info.streamId.value;
      var bound := if e.attendeeId.Some? then Bind(log, id, e.AttendeeOf()) else log;
      if e.Binds() {
        BindOwner(log, id, e.AttendeeOf(), other);
      }
      if e.muted.Some? {
        SetMutedOwner(bound, id, e.muted.value, other);
      }
      if e.Leaves() {
        LeaveOwner(log, id, e.dropped == Some(true), other);
      }
    }
  }

  /**
   * The two stream maps have the same keys, the streams bound and not left since, and hold the attendee and external
   * id of the last binding.
   */
  lemma {:induction false} BindingsFollowHistory(inputs: seq<AudioInput>)
    ensures BindingsKept(AudioRun(inputs).adapter, inputs)
  {
    if inputs != [] {
      BindingsFollowHistory(Init(inputs));
      forall id: u32
        ensures SameStreams(AudioRun(inputs).adapter)
        ensures LastBinding(inputs, id) == OwnerIfLive(AudioRun(inputs).adapter, id)
      {
        StepOwner(AudioRun(Init(inputs)), Last(inputs), id);
      }
      StepOwner(AudioRun(Init(inputs)), Last(inputs), 0);
    }
  }

  /** The attendee an entry is about: the one it binds, or the one its stream was last bound to. */
  function Subject(inputs: seq<AudioInput>, e: StreamInfo): Option<Attendee>
    requires e.streamId.Some?
  {
    if e.Binds() then Some(NamedBy(e)) else LastBinding(inputs, e.streamId.value)
  }

  /** Who an event is about and why it may be sent for entry `e`. */
  predicate Justified(event: AudioEvent, e: StreamInfo, subject: Option<Attendee>) {
    && subject == Some(event.attendee)
    && match event
       case Joined(_) => e.Binds()
       case Muted(_) => e.muted == Some(true)
       case Unmuted(_) => e.muted == Some(false)
       case Dropped(_) => e.Leaves() && e.dropped == Some(true)
       case Left(_) => e.Leaves() && e.dropped != Some(true)
  }

  /**
   * Every event names the attendee and external id of its stream's last binding, and has the kind its entry asks for.
   */
  lemma {:induction false} EventsNameLastBinding(inputs: seq<AudioInput>, e: StreamInfo)
    requires e.streamId.Some?
    ensures var before, after := AudioRun(inputs).events, AudioStep(AudioRun(inputs), Stream(e)).events;
            && before <= after
            && forall i | |before| <= i < |after| :: Justified(after[i], e, Subject(inputs, e))
  {
    BindingsFollowHistory(inputs);
    var log, id := AudioRun(inputs), e.streamId.value;
    assert LastBinding(inputs, id) == OwnerIfLive(log.adapter, id);
    if e.Binds() {
      assert Owner(Bind(log, id, e.AttendeeOf()).adapter, id) == e.AttendeeOf();
    }
  }
}
