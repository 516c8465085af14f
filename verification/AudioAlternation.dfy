/** When an attendee's presence events alternate: joined, gone, joined, and so on. */
module AudioAlternation {
  import opened Common
  import opened AudioModel
  import opened AudioPresence
  import opened AudioBound

  predicate IsPresence(e: AudioEvent) {
    e.Joined? || e.Left? || e.Dropped?
  }

  /** The presence events about `a`, true for Joined. */
  function PresenceEvents(events: seq<AudioEvent>, a: string): seq<bool> {
    if events == [] then []
    else
      var e, before := Last(events), PresenceEvents(Init(events), a);
      if IsPresence(e) && e.attendee.attendeeId == a then before + [e.Joined?] else before
  }

  ghost predicate PresenceAlternates(events: seq<AudioEvent>) {
    forall a :: Alternates(PresenceEvents(events, a))
  }

  /** An attendee counts as present exactly when the last presence event is Joined. */
  lemma {:induction false} PresentIsLast(events: seq<AudioEvent>, a: string)
    ensures Present(events, a) <==> PresenceEvents(events, a) != [] && Last(PresenceEvents(events, a))
  {
    if events != [] {
      PresentIsLast(Init(events), a);
    }
  }

  /** One more event keeps alternation exactly when it turns its attendee's presence around. */
  lemma {:induction false} OneMoreEvent(events: seq<AudioEvent>, e: AudioEvent)
    requires PresenceAlternates(events)
    ensures PresenceAlternates(events + [e]) <==>
            (IsPresence(e) ==> (e.Joined? <==> !Present(events, e.attendee.attendeeId)))
  {
    var b := e.attendee.attendeeId;
    assert Init(events + [e]) == events;
    PresentIsLast(events, b);
    var before := PresenceEvents(events, b);
    assert Alternates(before);
    if IsPresence(e) {
      var after := PresenceEvents(events + [e], b);
      assert after == before + [e.Joined?] && after[|before|] == e.Joined?;
      assert Alternates(after) <==> (e.Joined? <==> |before| % 2 == 0) by {
        assert forall i | 0 <= i < |before| :: after[i] == before[i];
      }
    }
    forall a | a != b || !IsPresence(e) ensures PresenceEvents(events + [e], a) == PresenceEvents(events, a) {
    }
  }

  /**
   * After `inputs` the entry binds an attendee of whom a stream left since the last binding, but no newest one: that
   * sends a second Joined.
   */
  ghost predicate JoinsAgain(inputs: seq<AudioInput>, x: AudioInput) {
    && x.Stream? && x.info.Binds()
    && BoundSince(inputs, x.info.attendeeId.value) && !ListedSince(inputs, x.info.attendeeId.value)
  }

  /** The newest stream of an attendee not bound since a newest one left is leaving: that reports them gone again. */
  ghost predicate LeavesAgain(inputs: seq<AudioInput>, x: AudioInput) {
    exists a :: LeavesNewestOf(inputs, x, a) && !BoundSince(inputs, a)
  }

  lemma {:induction false} NoPresenceEvent(log: AudioLog, id: u32, muted: bool)
    ensures PresenceAlternates(SetMuted(log, id, muted).events) <==> PresenceAlternates(log.events)
  {
    var after := SetMuted(log, id, muted).events;
    if after != log.events {
      forall a ensures PresenceEvents(after, a) == PresenceEvents(log.events, a) {
        assert Init(after) == log.events;
      }
    }
  }

  /** What the adapter tests, in terms of the events sent. */
  lemma {:induction false} AgainByEvents(inputs: seq<AudioInput>, x: AudioInput)
    ensures var log := AudioRun(inputs);
            && (JoinsAgain(inputs, x) <==>
                  x.Stream? && x.info.Binds() && x.info.attendeeId.value !in log.adapter.attendeeToStream
                  && Present(log.events, x.info.attendeeId.value))
            && (LeavesAgain(inputs, x) <==>
                  x.Stream? && x.info.Leaves() && x.info.streamId.value in log.adapter.streamToAttendee
                  && var a := log.adapter.streamToAttendee[x.info.streamId.value];
                     !HasNewerStream(log.adapter, a, x.info.streamId.value) && !Present(log.events, a))
  {
    forall a
      ensures Present(AudioRun(inputs).events, a) <==> BoundSince(inputs, a)
      ensures a in AudioRun(inputs).adapter.attendeeToStream <==> ListedSince(inputs, a)
      ensures LeavesNewestOf(inputs, x, a) <==>
              x.Stream? && x.info.Leaves() && x.info.streamId.value in AudioRun(inputs).adapter.streamToAttendee
              && AudioRun(inputs).adapter.streamToAttendee[x.info.streamId.value] == a
              && !HasNewerStream(AudioRun(inputs).adapter, a, x.info.streamId.value)
    {
      PresenceFollowsEntries(inputs, a);
      NewestByStreams(inputs, x, a);
    }
  }

  /** One entry keeps alternation exactly when it neither joins nor leaves again. */
  lemma {:induction false} AlternationStep(inputs: seq<AudioInput>, x: AudioInput)
    requires PresenceAlternates(AudioRun(inputs).events)
    ensures PresenceAlternates(AudioStep(AudioRun(inputs), x).events)
            <==> !JoinsAgain(inputs, x) && !LeavesAgain(inputs, x)
  {
    AgainByEvents(inputs, x);
    var log := AudioRun(inputs);
    match x
    case Level(level) => LevelKeepsRoster(log, level);
    case Stream(e) =>
      if e.streamId.Some? {
        var id := e.streamId.value;
        var bound := if e.attendeeId.Some? then Bind(log, id, e.AttendeeOf()) else log;
        if e.attendeeId.Some? {
          OneMoreEvent(log.events, Joined(e.AttendeeOf()));
        }
        if e.muted.Some? {
          NoPresenceEvent(bound, id, e.muted.value);
        }
        if e.Leaves() && id in log.adapter.streamToAttendee {
          var who := Owner(log.adapter, id);
          OneMoreEvent(log.events, if e.dropped == Some(true) then Dropped(who) else Left(who));
        }
      }
  }

  ghost predicate AlternatesThroughout(inputs: seq<AudioInput>) {
    PresenceAlternates(AudioRun(inputs).events) && (inputs == [] || AlternatesThroughout(Init(inputs)))
  }

  ghost predicate NeverAgain(inputs: seq<AudioInput>) {
    inputs == []
    || (NeverAgain(Init(inputs))
        && !JoinsAgain(Init(inputs), Last(inputs)) && !LeavesAgain(Init(inputs), Last(inputs)))
  }

  /**
   * Presence alternation. Over any run every attendee's presence events are Joined, gone, Joined, and so on after every
   * entry, if and only if no entry binds an attendee of whom only an older stream left since the last binding, and no
   * newest stream leaves of an attendee not bound since the newest left before. The condition reads entries alone.
   */
  lemma {:induction false} PresenceAlternationIff(inputs: seq<AudioInput>)
    ensures AlternatesThroughout(inputs) <==> NeverAgain(inputs)
  {
    if inputs != [] {
      PresenceAlternationIff(Init(inputs));
      if AlternatesThroughout(Init(inputs)) {
        AlternationStep(Init(inputs), Last(inputs));
      }
    }
  }

  /** The entry binds an attendee who has a live stream but whose listing an earlier leave erased. */
  predicate BindsUnlisted(s: Adapter, x: AudioInput) {
    && x.Stream? && x.info.Binds()
    && x.info.attendeeId.value !in s.attendeeToStream && Live(s, x.info.attendeeId.value)
  }

  predicate NeverBindsUnlisted(inputs: seq<AudioInput>) {
    inputs == []
    || (NeverBindsUnlisted(Init(inputs)) && !BindsUnlisted(AudioRun(Init(inputs)).adapter, Last(inputs)))
  }

  /**
   * Where the roster agrees, the condition speaks of the maps alone: a stale leave erases the listing of an attendee
   * who keeps a newer stream, and events alternate exactly when no such attendee is bound again before being gone.
   */
  lemma {:induction false} SafeRosterAlternatesIff(inputs: seq<AudioInput>)
    requires SafeThroughout(inputs)
    ensures AlternatesThroughout(inputs) <==> NeverBindsUnlisted(inputs)
  {
    PresenceAlternationIff(inputs);
    AgainIsUnlisted(inputs);
  }

  lemma {:induction false} AgainIsUnlisted(inputs: seq<AudioInput>)
    requires SafeThroughout(inputs)
    ensures NeverAgain(inputs) <==> NeverBindsUnlisted(inputs)
  {
    if inputs != [] {
      var init, x := Init(inputs), Last(inputs);
      AgainIsUnlisted(init);
      RosterAgreement(init);
      AgainByEvents(init, x);
      var log := AudioRun(init);
      assert JoinsAgain(init, x) <==> BindsUnlisted(log.adapter, x);
      if x.Stream? && x.info.Leaves() && x.info.streamId.value in log.adapter.streamToAttendee {
        assert Live(log.adapter, log.adapter.streamToAttendee[x.info.streamId.value]);
      }
      assert !LeavesAgain(init, x);
    }
  }

  /** A run with a second Joined: of two streams the older leaves, and the attendee is bound to a third. */
  lemma {:induction false} StaleLeaveJoinsTwice(a: string, id: u32, newer: u32, third: u32)
    requires id < newer
    ensures var inputs := [Binding(id, a), Binding(newer, a), Leaving(id), Binding(third, a)];
            PresenceEvents(AudioRun(inputs).events, a) == [true, true]
  {
    var one, two, three := [Binding(id, a)], [Binding(id, a), Binding(newer, a)],
        [Binding(id, a), Binding(newer, a), Leaving(id)];
    assert AudioRun([]) == START && [] + [Binding(id, a)] == one;
    AudioRunSnoc([], Binding(id, a));
    AudioRunSnoc(one, Binding(newer, a));
    assert one + [Binding(newer, a)] == two;
    AudioRunSnoc(two, Leaving(id));
    assert two + [Leaving(id)] == three;
    AudioRunSnoc(three, Binding(third, a));
    assert three + [Binding(third, a)] == [Binding(id, a), Binding(newer, a), Leaving(id), Binding(third, a)];
    JoinedTwice(AudioRun(two), a, id, newer, third);
  }

  lemma {:induction false} JoinedTwice(log: AudioLog, a: string, id: u32, newer: u32, third: u32)
    requires id < newer && log.adapter.streamToAttendee == map[id := a, newer := a]
    requires log.events == [Joined(Attendee(a, ""))]
    ensures var left := AudioStep(log, Leaving(id));
            PresenceEvents(AudioStep(left, Binding(third, a)).events, a) == [true, true]
  {
    assert HasNewerStream(log.adapter, a, id) by {
      assert log.adapter.streamToAttendee[newer] == a;
    }
    var left := AudioStep(log, Leaving(id));
    assert left.events == log.events && a !in left.adapter.attendeeToStream;
    var events := AudioStep(left, Binding(third, a)).events;
    assert Init(events) == log.events && Init(log.events) == [];
    assert PresenceEvents(log.events, a) == [true];
  }
}
