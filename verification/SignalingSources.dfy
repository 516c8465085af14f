/** The contents of the directory and of the video events, field by field from the index frames. */
module SignalingSources {
  import opened Common
  import opened StringOrder
  import opened SignalingModel
  import opened SignalingIndex
  import opened SignalingSession
  import opened SignalingView

  // ----- Newly available sources -----

  /** Source `i` is the first of an attendee not known before. */
  predicate Introduces(known: set<string>, sources: seq<IndexSource>, i: int) {
    0 <= i < |sources| && sources[i].attendeeId !in known
    && forall j | 0 <= j < i :: sources[j].attendeeId != sources[i].attendeeId
  }

  function IntroCount(known: set<string>, sources: seq<IndexSource>): nat {
    if sources == [] then 0
    else IntroCount(known, Init(sources)) + if Introduces(known, sources, |sources| - 1) then 1 else 0
  }

  /** One element for every source that introduces an attendee, in frame order and with the source's values. */
  predicate ReportsNew(infos: seq<SourceInfo>, known: set<string>, sources: seq<IndexSource>) {
    && |infos| == IntroCount(known, sources)
    && forall i | 0 <= i < |sources| && Introduces(known, sources, i) ::
         var rank := IntroCount(known, sources[..i]);
         rank < |infos| && Describes(infos[rank], sources[i])
  }

  predicate Describes(info: SourceInfo, s: IndexSource) {
    && info.attendee.attendeeId == s.attendeeId && info.attendee.externalUserId == s.externalUserId
    && info.maxBitrateKbps == s.maxBitrateKbps && info.streamId == s.streamId
  }

  lemma {:induction false} IntroducesIff(known: set<string>, sources: seq<IndexSource>)
    requires sources != []
    ensures Introduces(known, sources, |sources| - 1) <==>
            Last(sources).attendeeId !in known && Last(sources).attendeeId !in AttendeeIds(Init(sources))
  {
    var a := Last(sources).attendeeId;
    if a in AttendeeIds(Init(sources)) {
      var j :| 0 <= j < |sources| - 1 && Init(sources)[j].attendeeId == a;
      assert sources[j].attendeeId == a;
    } else {
      forall j | 0 <= j < |sources| - 1 ensures sources[j].attendeeId != a {
        assert Init(sources)[j].attendeeId in AttendeeIds(Init(sources));
      }
    }
  }

  lemma {:induction false} IntroducesBefore(known: set<string>, sources: seq<IndexSource>, i: nat)
    requires i < |sources| - 1
    ensures Introduces(known, sources, i) <==> Introduces(known, Init(sources), i)
    ensures sources[..i] == Init(sources)[..i] && sources[i] == Init(sources)[i]
  {
    assert forall j | 0 <= j <= i :: Init(sources)[j] == sources[j];
  }

  lemma {:induction false} NewSourcesReported(directory: map<string, StreamConfig>, sources: seq<IndexSource>)
    ensures ReportsNew(NewSources(directory, sources), directory.Keys, sources)
  {
    if sources != [] {
      var init, known, n := Init(sources), directory.Keys, |sources| - 1;
      NewSourcesReported(directory, init);
      IntroducesIff(known, sources);
      var infos := NewSources(directory, sources);
      assert NewSources(directory, init) <= infos && sources[..n] == init;
      forall i | 0 <= i < |sources| && Introduces(known, sources, i)
        ensures var rank := IntroCount(known, sources[..i]); rank < |infos| && Describes(infos[rank], sources[i])
      {
        if i < n {
          IntroducesBefore(known, sources, i);
        }
      }
    }
  }

  // ----- The directory -----

  /** The sources of the last index frame that took effect since the last leave acknowledgement. */
  function LastSources(inputs: seq<Input>): (sources: seq<IndexSource>)
    ensures AttendeeIds(sources) == ListedIds(inputs)
  {
    if inputs == [] || Last(inputs).LeaveAckFrame? then []
    else if EffectiveIndex(Init(inputs), Last(inputs)) then Last(inputs).index.sources
    else LastSources(Init(inputs))
  }

  /** The stream id of the first source for `a` in the index frame that introduced `a`. */
  function IntroducedStream(inputs: seq<Input>, a: string): u32
    requires a in ListedIds(inputs)
  {
    if !EffectiveIndex(Init(inputs), Last(inputs)) then IntroducedStream(Init(inputs), a)
    else if a in ListedIds(Init(inputs)) then IntroducedStream(Init(inputs), a)
    else FirstFor(Last(inputs).index.sources, a).streamId
  }

  /**
   * In every run the directory entry of `a` has the external id, group and bitrate of the last source for `a` in the
   * last index frame that took effect, and the stream id of the source that introduced `a`.
   */
  lemma {:induction false} DirectoryEntryFollowsInputs(cfg: Config, inputs: seq<Input>, a: string)
    ensures a in Run(cfg, inputs).client.directory <==> a in ListedIds(inputs)
    ensures a in ListedIds(inputs) ==>
              var entry, last := Run(cfg, inputs).client.directory[a], LastFor(LastSources(inputs), a);
              && entry.attendee.attendeeId == a && entry.attendee.externalUserId == last.externalUserId
              && entry.groupId == last.groupId && entry.maxBitrateKbps == last.maxBitrateKbps
              && entry.streamId == IntroducedStream(inputs, a)
  {
    DirectoryFollowsInputs(cfg, inputs);
    if inputs != [] {
      var init, x := Init(inputs), Last(inputs);
      DirectoryFollowsInputs(cfg, init);
      DirectoryEntryFollowsInputs(cfg, init, a);
      if x.IndexFrame? {
        IndexAcceptedIff(cfg, init, x.index);
        if EffectiveIndex(init, x) && a in ListedIds(inputs) {
          EntryAfterIndex(Run(cfg, init).client.directory, x.index.sources, a);
        }
      } else if !x.LeaveAckFrame? {
        DirectoryKept(cfg, Run(cfg, init), x);
      }
    }
  }

  lemma {:induction false} EntryAfterIndex(directory: map<string, StreamConfig>, sources: seq<IndexSource>, a: string)
    requires a in AttendeeIds(sources)
    ensures a in Refreshed(directory, sources)
    ensures var entry, last := Refreshed(directory, sources)[a], LastFor(sources, a);
            && entry.attendee.attendeeId == a && entry.attendee.externalUserId == last.externalUserId
            && entry.groupId == last.groupId && entry.maxBitrateKbps == last.maxBitrateKbps
            && entry.streamId == if a in directory then directory[a].streamId else FirstFor(sources, a).streamId
  {
    assert Refreshed(directory, sources)[a] == EntryFor(Remaining(directory, sources), sources, a);
  }

  // ----- What an index frame reports -----

  /**
   * One element for every attendee of the last index frame who is missing from this one, in map order, under the
   * external id and with the bitrate the last frame gave last, and without a stream id.
   */
  predicate ReportsGone(infos: seq<SourceInfo>, previous: seq<IndexSource>, sources: seq<IndexSource>) {
    && InfoIds(infos) == AttendeeIds(previous) - AttendeeIds(sources)
    && OrderedById(infos)
    && forall k | 0 <= k < |infos| ::
         && infos[k].attendee.attendeeId in AttendeeIds(previous)
         && var last := LastFor(previous, infos[k].attendee.attendeeId);
            && infos[k].attendee.externalUserId == last.externalUserId
            && infos[k].maxBitrateKbps == last.maxBitrateKbps && infos[k].streamId == 0
  }

  lemma {:induction false} GoneReported(cfg: Config, inputs: seq<Input>, sources: seq<IndexSource>)
    ensures ReportsGone(Departed(Run(cfg, inputs).client.directory, sources), LastSources(inputs), sources)
  {
    var directory := Run(cfg, inputs).client.directory;
    DirectoryKeyed(cfg, inputs);
    DirectoryFollowsInputs(cfg, inputs);
    DepartedExact(directory, sources);
    var infos := Departed(directory, sources);
    forall k | 0 <= k < |infos|
      ensures infos[k].attendee.attendeeId in AttendeeIds(LastSources(inputs))
      ensures var last := LastFor(LastSources(inputs), infos[k].attendee.attendeeId);
              && infos[k].attendee.externalUserId == last.externalUserId
              && infos[k].maxBitrateKbps == last.maxBitrateKbps && infos[k].streamId == 0
    {
      assert infos[k].attendee.attendeeId in InfoIds(infos);
      DirectoryEntryFollowsInputs(cfg, inputs, infos[k].attendee.attendeeId);
    }
  }

  /**
   * What an index frame reports after any run. One that takes effect sends, being the first since the transport closed,
   * Started with the latest credentials and every new source, if they have not expired; and later Available with the
   * new sources and Unavailable with the missing ones, where there are any. All else is not reported.
   */
  lemma {:induction false} IndexReports(cfg: Config, inputs: seq<Input>, index: Index, now: int)
    returns (introduced: seq<SourceInfo>, gone: seq<SourceInfo>)
    ensures ReportsNew(introduced, ListedIds(inputs), index.sources)
    ensures ReportsGone(gone, LastSources(inputs), index.sources)
    ensures Run(cfg, inputs + [IndexFrame(index, now)]).events == Run(cfg, inputs).events +
            if !EffectiveIndex(inputs, IndexFrame(index, now)) then []
            else if IndexSeen(inputs) then
              (if introduced == [] then [] else [Available(introduced)])
              + (if gone == [] then [] else [Unavailable(gone)])
            else if LatestAck(inputs).Some? && now <= LatestAck(inputs).value.Deadline() then
              [Started(LatestAck(inputs).value.credentials, introduced)]
            else []
  {
    var c, directory := Run(cfg, inputs).client, Run(cfg, inputs).client.directory;
    introduced, gone := NewSources(directory, index.sources), Departed(directory, index.sources);
    DirectoryFollowsInputs(cfg, inputs);
    SessionFollowsInputs(cfg, inputs);
    IndexAcceptedIff(cfg, inputs, index);
    NewSourcesReported(directory, index.sources);
    GoneReported(cfg, inputs, index.sources);
    RunSnoc(cfg, inputs, IndexFrame(index, now));
    assert Run(cfg, inputs + [IndexFrame(index, now)]).events
        == Run(cfg, inputs).events + IndexEvents(c, index, now);
  }
}
