/** Who is shown as present, read off the entries alone; and when someone is without a live stream. */
module AudioBound {
  import opened Common
  import opened AudioModel
  import opened AudioPresence

  // ----- Presence and listing, by the entries -----

  /** Stream `id` was last bound to `a` and has not left since. */
  predicate BoundTo(inputs: seq<AudioInput>, id: u32, a: string) {
    var last := LastBinding(inputs, id);
    last.Some? && last.value.attendeeId == a
  }

  /** The entry binds a stream to `a`. */
  predicate BindsAttendee(x: AudioInput, a: string) {
    x.Stream? && x.info.Binds() && x.info.attendeeId.value == a
  }

  /** After `inputs` the entry is the leave of a stream of `a`. */
  predicate LeavesStreamOf(inputs: seq<AudioInput>, x: AudioInput, a: string) {
    x.Stream? && x.info.Leaves() && BoundTo(inputs, x.info.streamId.value, a)
  }

  /** And of the newest one. */
  ghost predicate LeavesNewestOf(inputs: seq<AudioInput>, x: AudioInput, a: string) {
    LeavesStreamOf(inputs, x, a) && !exists o: u32 | o > x.info.streamId.value :: BoundTo(inputs, o, a)
  }

  /** A stream was bound to `a` since a newest stream of `a` last left. */
  ghost predicate BoundSince(inputs: seq<AudioInput>, a: string) {
    inputs != []
    && (BindsAttendee(Last(inputs), a)
        || (BoundSince(Init(inputs), a) && !LeavesNewestOf(Init(inputs), Last(inputs), a)))
  }

  /** A stream was bound to `a` since any stream of `a` last left. */
  predicate ListedSince(inputs: seq<AudioInput>, a: string) {
    inputs != []
    && (BindsAttendee(Last(inputs), a)
        || (ListedSince(Init(inputs), a) && !LeavesStreamOf(Init(inputs), Last(inputs), a)))
  }

  /** The stream map is what the entries bound. */
  lemma {:induction false} BoundIsLive(inputs: seq<AudioInput>, id: u32, a: string)
    ensures var streams := AudioRun(inputs).adapter.streamToAttendee;
            BoundTo(inputs, id, a) <==> id in streams && streams[id] == a
  {
    BindingsFollowHistory(inputs);
    assert LastBinding(inputs, id) == OwnerIfLive(AudioRun(inputs).adapter, id);
  }

  lemma {:induction false} NewestByStreams(inputs: seq<AudioInput>, x: AudioInput, a: string)
    ensures var s := AudioRun(inputs).adapter;
            && (LeavesStreamOf(inputs, x, a) <==>
                  x.Stream? && x.info.Leaves() && x.info.streamId.value in s.streamToAttendee
                  && s.streamToAttendee[x.info.streamId.value] == a)
            && (LeavesNewestOf(inputs, x, a) <==>
                  LeavesStreamOf(inputs, x, a) && !HasNewerStream(s, a, x.info.streamId.value))
  {
    var s := AudioRun(inputs).adapter;
    forall o: u32 ensures BoundTo(inputs, o, a) <==> o in s.streamToAttendee && s.streamToAttendee[o] == a {
      BoundIsLive(inputs, o, a);
    }
  }

  /** What one entry does to the presence and the listing of `a`. */
  lemma {:induction false} PresenceStep(log: AudioLog, x: AudioInput, a: string)
    requires a in log.adapter.attendeeToStream ==> Present(log.events, a)
    ensures var s, after := log.adapter, AudioStep(log, x);
            var leaves := x.Stream? && x.info.Leaves() && x.info.streamId.value in s.streamToAttendee
                          && s.streamToAttendee[x.info.streamId.value] == a;
            && (Present(after.events, a) <==>
                  BindsAttendee(x, a)
                  || (Present(log.events, a) && !(leaves && !HasNewerStream(s, a, x.info.streamId.value))))
            && (a in after.adapter.attendeeToStream <==>
                  BindsAttendee(x, a) || (a in s.attendeeToStream && !leaves))
  {
    match x
    case Level(level) => LevelKeepsRoster(log, level);
    case Stream(e) =>
      if e.streamId.Some? {
        var id := e.streamId.value;
        var bound := if e.attendeeId.Some? then Bind(log, id, e.AttendeeOf()) else log;
        if e.attendeeId.Some? {
          PresentSnoc(log.events, Joined(e.AttendeeOf()), a);
        }
        if e.muted.Some? {
          MuteKeepsPresence(bound, id, e.muted.value, a);
        }
        if e.Leaves() && id in log.adapter.streamToAttendee {
          var who := Owner(log.adapter, id);
          PresentSnoc(log.events, if e.dropped == Some(true) then Dropped(who) else Left(who), a);
        }
      }
  }

  lemma {:induction false} MuteKeepsPresence(log: AudioLog, id: u32, muted: bool, a: string)
    ensures var after := SetMuted(log, id, muted);
            && (Present(after.events, a) <==> Present(log.events, a))
            && after.adapter.attendeeToStream == log.adapter.attendeeToStream
  {
    var after := SetMuted(log, id, muted);
    if after.events != log.events {
      PresentSnoc(log.events, Last(after.events), a);
    }
  }

  /**
   * Over any run, an attendee is shown as present exactly when bound since a newest stream of theirs last left, and
   * listed exactly when bound since any stream of theirs last left; so whoever is listed is present.
   */
  lemma {:induction false} PresenceFollowsEntries(inputs: seq<AudioInput>, a: string)
    ensures Present(AudioRun(inputs).events, a) <==> BoundSince(inputs, a)
    ensures a in AudioRun(inputs).adapter.attendeeToStream <==> ListedSince(inputs, a)
    ensures ListedSince(inputs, a) ==> BoundSince(inputs, a)
  {
    if inputs != [] {
      PresenceFollowsEntries(Init(inputs), a);
      PresenceStep(AudioRun(Init(inputs)), Last(inputs), a);
      NewestByStreams(Init(inputs), Last(inputs), a);
    }
  }

  // ----- Present without a live stream -----

  ghost predicate NoGhostThroughout(inputs: seq<AudioInput>) {
    NoGhost(AudioRun(inputs)) && (inputs == [] || NoGhostThroughout(Init(inputs)))
  }

  /** The entry binds to someone else the only stream of an attendee bound since their newest last left. */
  ghost predicate TakesOnlyStream(inputs: seq<AudioInput>, x: AudioInput) {
    x.Stream? && x.info.Binds()
    && exists b | b != x.info.attendeeId.value :: OnlyStream(inputs, x.info.streamId.value, b) && BoundSince(inputs, b)
  }

  /** Stream `id` is bound to `b` and no other is. */
  ghost predicate OnlyStream(inputs: seq<AudioInput>, id: u32, b: string) {
    BoundTo(inputs, id, b) && forall o: u32 | BoundTo(inputs, o, b) :: o == id
  }

  ghost predicate NeverTakesOnlyStream(inputs: seq<AudioInput>) {
    inputs == [] || (NeverTakesOnlyStream(Init(inputs)) && !TakesOnlyStream(Init(inputs), Last(inputs)))
  }

  lemma {:induction false} OnlyStreamByMaps(inputs: seq<AudioInput>, x: AudioInput)
    ensures var log := AudioRun(inputs);
            TakesOnlyStream(inputs, x) <==>
            x.Stream? && x.info.Binds()
            && TakesLastStream(log.adapter, x.info.streamId.value, x.info.attendeeId.value)
            && Present(log.events, log.adapter.streamToAttendee[x.info.streamId.value])
  {
    if x.Stream? && x.info.Binds() {
      var s, id := AudioRun(inputs).adapter, x.info.streamId.value;
      forall b
        ensures OnlyStream(inputs, id, b) <==>
                id in s.streamToAttendee && s.streamToAttendee[id] == b && !LiveBeside(s, b, id)
        ensures BoundSince(inputs, b) <==> Present(AudioRun(inputs).events, b)
      {
        OnlyStreamIsLive(inputs, id, b);
        PresenceFollowsEntries(inputs, b);
      }
    }
  }

  lemma {:induction false} OnlyStreamIsLive(inputs: seq<AudioInput>, id: u32, b: string)
    ensures var s := AudioRun(inputs).adapter;
            OnlyStream(inputs, id, b) <==>
            id in s.streamToAttendee && s.streamToAttendee[id] == b && !LiveBeside(s, b, id)
  {
    var s := AudioRun(inputs).adapter;
    forall o: u32 ensures BoundTo(inputs, o, b) <==> o in s.streamToAttendee && s.streamToAttendee[o] == b {
      BoundIsLive(inputs, o, b);
    }
    if LiveBeside(s, b, id) {
      var o :| o in s.streamToAttendee && s.streamToAttendee[o] == b && o != id;
      assert BoundTo(inputs, o, b);
    }
  }

  /**
   * Over any run, whoever is shown as present has a live stream after every entry, if and only if no entry takes the
   * only stream of an attendee who was bound since their newest stream last left.
   */
  lemma {:induction false} NoGhostIff(inputs: seq<AudioInput>)
    ensures NoGhostThroughout(inputs) <==> NeverTakesOnlyStream(inputs)
  {
    if inputs != [] {
      NoGhostIff(Init(inputs));
      OnlyStreamByMaps(Init(inputs), Last(inputs));
      if NoGhostThroughout(Init(inputs)) {
        GhostStep(AudioRun(Init(inputs)), Last(inputs));
      }
    }
  }
}
