# Amazon Chime signaling client: a verified model

The project models the five stateful parts of the C++ signaling client and proves what they promise over whole runs.

- **Session descriptions** (`SdpText.dfy`, `Sdp.dfy`, `SdpMedia.dfy`, `SdpLiteral.dfy`): `SDPUtils::Split` and
  `SDPUtils::ParseSDP`.
- **Audio frames** (`AudioModel.dfy`, `AudioPresence.dfy`, `AudioBound.dfy`, `AudioAlternation.dfy`, `AudioLevels.dfy`,
  `AudioHeard.dfy`, `AudioFrameAdapter.dfy`): the presence, mute, volume and signal strength events that
  `DefaultAudioFrameAdapter` derives from its six maps.
- **Signaling client** (`SignalingModel.dfy`, `SignalingWire.dfy`, `SignalingIndex.dfy`, `SignalingSession.dfy`,
  `SignalingView.dfy`, `SignalingSources.dfy`, `SignalingStreams.dfy`, `SignalingOffer.dfy`, `SignalingAllocations.dfy`,
  `SignalingExamples.dfy`, `SignalingLocal.dfy`, `SignalingReceive.dfy`, `SignalingReports.dfy`, `SignalingClient.dfy`): the
  state machine of `DefaultSignalingClient`, the frames it sends and the events it sends its observers.
- **Socket** (`SocketModel.dfy`, `SocketReconnect.dfy`, `Websocket.dfy`): the receive buffer and the write queue of
  `LibwebsocketsWebsocket`, within a connection and across reconnects.
- **Transport and channel** (`Transport.dfy`, `Channel.dfy`, `SystemChannel.dfy`): the type byte of
  `WebsocketSignalingTransport`, and all layers together up to the far end of the connection.

`Common.dfy` holds shared types, `StringOrder.dfy` the order in which a `std::map` visits its keys.

## How it is built

Each object of the program is a class with the program's fields, updated in place by methods with the program's branches and
loops. Its ghost `history` lists what was called and received, and `Valid()` says that the fields, the frames sent and the events
delivered are what a machine (`Step`/`Run`, `AudioStep`/`AudioRun`, `SocketStep`/`SocketRun`) reaches from that history. Every
method appends its input to `history` and keeps `Valid()`, so it determines the whole new state. The theorems are about the
machines, for every list of inputs; the adapter and the client draw the main ones together for their own fields in lemmas named
`Guarantees` and `GuaranteesNext`. Loops are proved against independent definitions: the sections of a description by what each
line is preceded by, the directory by first and last sources, allocations by position. Every stored field, frame and event is
also characterised by the inputs alone, field by field: mute states and levels in `AudioHeard`, the local side in
`SignalingLocal`, the directory in `SignalingSources`, SUBSCRIBE frames in `SignalingReceive`, all other frames and events in
`SignalingReports`. The table lists the loops and the
theorems; the client's handlers without a loop (`Start`, `Stop`, `SetMute`, `OnSignalingClosed` and the like) have no row, each
being one `Step`.

Clock readings, the result of a socket write and the serialiser come in as parameters. `std::map` is `map`, visited in ascending
order where the order shows, `uint32_t` ids are integers in their range, floats are reals.

## What turned out false, and exactly when it holds

- The roster of attendees follows the live streams after every entry if and only if no entry binds another attendee's only live
  stream and no leave removes an attendee's newest stream while an older one is live (`AudioPresence.RosterAgreement`;
  `AudioPresence.NewestFirstLosesAttendee` is a failing input). The input discipline in the source comments implies the condition
  when older streams leave first (`AudioPresence.OrderedStreamsAgree`).
- Whoever is shown as present has a live stream if and only if no entry takes the only stream of an attendee bound since their
  newest stream last left (`AudioBound.NoGhostIff`).
- An attendee's presence events alternate if and only if no entry binds an attendee of whom only an older stream left since the
  last binding, and no newest stream leaves of an attendee not bound since a newest one last left
  (`AudioAlternation.PresenceAlternationIff`); both are read off the entries. A stale leave erases the listing of an attendee who
  keeps a newer stream, so the next binding announces that attendee twice (`AudioAlternation.StaleLeaveJoinsTwice`).
- Raw volumes above 2^31 + 14 wrap to full volume, so volume is antitone exactly where `AudioLevels.VolumeAntitoneIff` says.
- An observer of remote video knows the attendees of the last accepted index after every input if and only if every input is
  `KeepsView`, a condition on the inputs alone (`SignalingView.ViewFollowsInputsIff`). A transport close keeps the directory, so a
  reconnect fails it: in the run of `SignalingView.ReconnectLosesView` the directory lists an attendee and the observer nobody.
- A session has started if and only if the first index frame to take effect since the last close came no later than the deadline
  of the credentials then held (`SignalingView.StartedIff`). Past it, even fresh credentials do not help until the transport closes
  (`SignalingView.FirstIndexDecides`, as a run `SignalingView.ExpiredFirstIndex`).
- Send descriptors and allocations are paired by position. They are aligned for every list of allocations if and only if the
  answer's local mids begin with those of the offer's senders, none of which is local audio on a video section or repeated within
  reach (`SignalingAllocations.AlignmentIff`); a missing section shifts the later ones
  (`SignalingAllocations.MissingSectionShifts`). `SignalingAllocations.AnswerAlignsSubscribeIff` says the same of the SUBSCRIBE a
  run sends, and `SignalingExamples.MisalignedSubscribe` is a run that fails.
- Moving a subscribed mid to another attendee keeps the stream first asked for (`SignalingStreams.SubscribedStreamOrigin`, as a run
  `SignalingExamples.MovedMidKeepsStream`), so the request is met only in the cases of `SignalingStreams.RequestedStreamIff`.
- The receive buffer outlives its connection: the first message of the next connection is intact if and only if no bytes came since
  the last complete message (`SocketReconnect.NextConnectionIntactIff`, as a run `SocketReconnect.StaleByteInFront`).
- So does the write queue: a connection starts with its own JOIN if and only if nothing waited, and what it carries is a word of the
  wire language if and only if it is empty, nothing waited, or the oldest frame waiting is a JOIN (`SocketReconnect.FirstWriteIff`,
  `SystemChannel.NextConnectionIff`). A LEAVE left from the last connection goes out first (`SystemChannel.StaleLeaveFirst`).
- `Split` undoes a join of delimiter-free tokens if and only if the delimiter has no border, which CRLF does not
  (`SdpText.SplitInvertsJoinIff`, `SdpText.CrlfRoundTrip`).
- A printed list of media descriptions parses back to its sections if and only if each has its mid line before its direction line
  or carries the mid already in force (`Sdp.ParsePrintRoundTripIff`).
- The sections are the audio and video descriptions if and only if each of those has exactly one direction line and none stands in
  front of the first description or in one of another type (`SdpMedia.SectionsAreMediaIff`). Section 6.7 of RFC 8866 allows it in
  both places. In front, it becomes a video section (`Sdp.SessionDirectionIsVideo`); in another type, a section of the type of the
  last audio or video description (`SdpMedia.SectionOfBlockLine`). So a receive-only offer with a data channel goes out as DUPLEX
  (`SignalingOffer.DataChannelOffersDuplex`); `SignalingOffer.DuplexIff` says exactly which offers do.
- A direction attribute is recognised by its prefix but read by equality (`Sdp.DirectionReadByEquality`), where section 6.7 of
  RFC 8866 has exact attribute names.

## Model

| member | source | states |
|---|---|---|
| SdpText.FindIsFirst | chime-sdk-signaling-cpp/src/utils/sdp_utils.h:41 | the string search gives the first occurrence from a position, and none only if there is none |
| SdpText.Split | chime-sdk-signaling-cpp/src/utils/sdp_utils.h:36-49 | the loop terminates for a non-empty delimiter; joining its tokens gives back the text and no token contains the delimiter |
| SdpText.EmptyDelimiterMakesNoProgress | chime-sdk-signaling-cpp/src/utils/sdp_utils.h:41-45 | with an empty delimiter the search always succeeds where it starts, so the position never moves |
| SdpText.TokensOfJoin | chime-sdk-signaling-cpp/src/utils/sdp_utils.h:36-49 | splitting a join of delimiter-free tokens gives the tokens back when the delimiter has no border |
| SdpText.SplitInvertsJoinIff | chime-sdk-signaling-cpp/src/utils/sdp_utils.h:36-49 | that holds for all such token lists exactly for the delimiters without a border |
| SdpText.CrlfRoundTrip | chime-sdk-signaling-cpp/src/utils/sdp_utils.h:53 | for CRLF, split and join are mutually inverse |
| Sdp.ParseSdp | chime-sdk-signaling-cpp/src/utils/sdp_utils.h:52-74 | the line-driven loop gives one section per direction line, with the type and mid announced last before that line |
| Sdp.SectionOfLine | chime-sdk-signaling-cpp/src/utils/sdp_utils.h:65-70 | the section of a direction line stands at that line's rank among the direction lines and nothing else makes sections |
| Sdp.LatestAnnouncement | chime-sdk-signaling-cpp/src/utils/sdp_utils.h:59-64 | type and mid in force are those of the last line that announced one |
| Sdp.DirectionReadByEquality | chime-sdk-signaling-cpp/src/utils/sdp_utils.h:77-83 | which lines are read as which direction, both ways and in literal text; an inexact known word is read as send-receive |
| Sdp.AnnouncingLines | chime-sdk-signaling-cpp/src/utils/sdp_utils.h:56-64 | which lines announce audio, video or a mid, and which mid, in literal text |
| SdpLiteral.LiteralDocument | chime-sdk-signaling-cpp/src/utils/sdp_utils.h:52-74 | a document of three lines, character by character, parses to its one section |
| Sdp.KeepsOwnMidIff | chime-sdk-signaling-cpp/src/utils/sdp_utils.h:63-69 | a description gives its own section exactly when its mid line comes first or its mid is already in force; else its section has the mid of the one before |
| Sdp.ParsePrintRoundTripIff | chime-sdk-signaling-cpp/src/utils/sdp_utils.h:52-84 | parsing printed descriptions, with mid and direction lines in either order and any ignored lines around them, gives the sections back exactly when every mid is in force at its direction line |
| Sdp.ParsePrintRoundTrip | chime-sdk-signaling-cpp/src/utils/sdp_utils.h:52-84 | in particular with every mid line first |
| SdpMedia.SplitsIntoBlocks | chime-sdk-signaling-cpp/src/utils/sdp_utils.h:52-58 | every list of lines is a session part without m-lines followed by media descriptions, each from one m-line of any type to the next |
| SdpMedia.SectionsAreMediaIff | chime-sdk-signaling-cpp/src/utils/sdp_utils.h:58-70 | after each description there are as many sections as audio and video descriptions, exactly when no direction line stands in front of the first description or in one of another type, and one in each of audio or video |
| SdpMedia.SectionOfBlockLine | chime-sdk-signaling-cpp/src/utils/sdp_utils.h:59-68 | a direction line in any description gives a section of the type of the last audio or video description, with the own mid if announced before the line and else the mid in force |
| SdpMedia.SectionOfMedia | chime-sdk-signaling-cpp/src/utils/sdp_utils.h:59-68 | where sections are media, the section of an audio or video description stands at its rank with its type and direction, and has its only mid exactly when that comes before the direction line or was in force |
| SdpMedia.DataChannelIsVideo | chime-sdk-signaling-cpp/src/utils/sdp_utils.h:59-68 | a receive-only video description and a data channel give two video sections, the second sending |
| Sdp.SessionDirectionIsVideo | chime-sdk-signaling-cpp/src/utils/sdp_utils.h:56-69 | a direction line before any m-line becomes a video section, whatever follows |
| AudioFrameAdapter.DefaultAudioFrameAdapter.OnAudioStreamIdInfo | chime-sdk-signaling-cpp/src/audio_video/default_audio_frame_adapter.cc:36-139 | handling a stream info frame takes the six maps and the delivered events through the machine steps of its entries |
| AudioFrameAdapter.DefaultAudioFrameAdapter.OnAudioMetadata | chime-sdk-signaling-cpp/src/audio_video/default_audio_frame_adapter.cc:141-200 | handling a metadata frame does the same and delivers the changes as at most one non-empty batch of each kind |
| AudioFrameAdapter.DefaultAudioFrameAdapter.AttendeeHasNewStreamId | chime-sdk-signaling-cpp/src/audio_video/default_audio_frame_adapter.cc:118-125 | the scan finds a live stream of the attendee with a larger id exactly when there is one |
| AudioFrameAdapter.DefaultAudioFrameAdapter.Guarantees | chime-sdk-signaling-cpp/src/audio_video/default_audio_frame_adapter.h:29-34 | for the maps of any reachable adapter: presence, listing, mute states and levels by the entries, and mute events and level batches as exactly their changes; roster, alternation and bindings |
| AudioFrameAdapter.DefaultAudioFrameAdapter.GuaranteesNext | chime-sdk-signaling-cpp/src/audio_video/default_audio_frame_adapter.cc:52-137 | the next entry's events name the stream's last bound attendee and fit the entry |
| AudioPresence.RosterStep | chime-sdk-signaling-cpp/src/audio_video/default_audio_frame_adapter.cc:52-66 | one entry keeps presence events and live streams in agreement exactly when it is safe in the state it meets |
| AudioPresence.RosterAgreement | chime-sdk-signaling-cpp/src/audio_video/default_audio_frame_adapter.cc:36-139 | over any run, last presence event Joined means having a live stream after every entry, if and only if every entry is safe |
| AudioPresence.OrderedStreamsAgree | chime-sdk-signaling-cpp/src/audio_video/default_audio_frame_adapter.cc:37-51 | that agreement under the discipline of no rebinding and oldest stream leaving first |
| AudioPresence.NewestFirstLosesAttendee | chime-sdk-signaling-cpp/src/audio_video/default_audio_frame_adapter.cc:113-137 | a run in which the newest of two streams leaves and an attendee with a live stream is reported gone |
| AudioBound.PresenceFollowsEntries | chime-sdk-signaling-cpp/src/audio_video/default_audio_frame_adapter.cc:52-137 | over any run an attendee is shown as present exactly when bound since their newest stream last left, and listed exactly when bound since any stream of theirs left |
| AudioBound.NoGhostIff | chime-sdk-signaling-cpp/src/audio_video/default_audio_frame_adapter.cc:52-137 | over any run whoever is shown as present has a live stream after every entry, if and only if no entry takes the only stream of an attendee bound since their newest left |
| AudioAlternation.AlternationStep | chime-sdk-signaling-cpp/src/audio_video/default_audio_frame_adapter.cc:52-137 | after any run one more entry keeps the alternation of presence events exactly when, by the entries, it neither joins nor leaves again |
| AudioAlternation.PresenceAlternationIff | chime-sdk-signaling-cpp/src/audio_video/default_audio_frame_adapter.cc:52-137 | over any run each attendee's presence events are Joined, gone, Joined and so on after every entry, if and only if, by the entries alone, none joins or leaves again |
| AudioAlternation.SafeRosterAlternatesIff | chime-sdk-signaling-cpp/src/audio_video/default_audio_frame_adapter.cc:52-137 | where the roster agrees, that is if and only if no entry binds an attendee with a live stream whose listing is gone |
| AudioAlternation.StaleLeaveJoinsTwice | chime-sdk-signaling-cpp/src/audio_video/default_audio_frame_adapter.cc:113-137 | a run with two Joined in a row: the older of two streams leaves and a third is bound |
| AudioPresence.GhostStep | chime-sdk-signaling-cpp/src/audio_video/default_audio_frame_adapter.cc:102-137 | one entry makes a present attendee without live stream exactly when it binds such an attendee's only live stream to another |
| AudioPresence.NoGhostAttendees | chime-sdk-signaling-cpp/src/audio_video/default_audio_frame_adapter.cc:52-137 | without rebinding of live streams, leaves in any order, whoever is shown as present has a live stream |
| AudioPresence.EntriesPointBack | chime-sdk-signaling-cpp/src/audio_video/default_audio_frame_adapter.cc:62-63 | without rebinding, every attendee-to-stream entry names a live stream of that attendee |
| AudioPresence.MuteAlternation | chime-sdk-signaling-cpp/src/audio_video/default_audio_frame_adapter.cc:68-100 | over any run each attendee's mute events strictly alternate starting with Muted and the last agrees with the stored state |
| AudioHeard.MuteFollowsEntries | chime-sdk-signaling-cpp/src/audio_video/default_audio_frame_adapter.cc:68-100 | over any run an attendee's stored mute state is that of the last entry with one for a stream then bound to them, and the mute events about them are exactly its changes |
| AudioPresence.BindingsFollowHistory | chime-sdk-signaling-cpp/src/audio_video/default_audio_frame_adapter.cc:63-65 | the two stream maps have equal keys, the streams bound and not left since, and hold the last binding's names |
| AudioPresence.EventsNameLastBinding | chime-sdk-signaling-cpp/src/audio_video/default_audio_frame_adapter.cc:106-134 | every event names its stream's last bound attendee and external id, and is Dropped, Left, Muted or Unmuted as its entry says |
| AudioLevels.VolumeSteps | chime-sdk-signaling-cpp/src/audio_video/default_audio_frame_adapter.cc:13-18 | normalised volume lies in [0,1] on a grid of 28 steps: full up to 14, zero from 42, full again after wrapping |
| AudioLevels.VolumeAntitoneIff | chime-sdk-signaling-cpp/src/audio_video/default_audio_frame_adapter.cc:13-18 | exactly which pairs of raw volumes are ordered the other way round |
| AudioLevels.SignalSteps | chime-sdk-signaling-cpp/src/audio_video/default_audio_frame_adapter.cc:27-31 | normalised strength is 0, a half or 1 |
| AudioLevels.SignalMonotone | chime-sdk-signaling-cpp/src/audio_video/default_audio_frame_adapter.cc:27-31 | a larger raw strength is never weaker |
| AudioLevels.GridEquality | chime-sdk-signaling-cpp/src/audio_video/default_audio_frame_adapter.cc:20-25 | on such grids the epsilon test is equality |
| AudioLevels.UpdatesRebuildCache | chime-sdk-signaling-cpp/src/audio_video/default_audio_frame_adapter.cc:159-199 | after any run, replaying the delivered updates gives the stored levels, and every update delivered was a change |
| AudioHeard.LevelsFollowEntries | chime-sdk-signaling-cpp/src/audio_video/default_audio_frame_adapter.cc:141-199 | over any run a stored level is the step of the last raw value reported for a stream then bound to the attendee, and the updates are exactly the changes of step, named by the stream's last binding |
| SignalingClient.DefaultSignalingClient.AddSubscriptions | chime-sdk-signaling-cpp/src/signaling/default_signaling_client.cc:141-161 | the loop over the requested mids computes the declared subscription map |
| SignalingClient.DefaultSignalingClient.WalkSections | chime-sdk-signaling-cpp/src/signaling/default_signaling_client.cc:179-224 | the loop over the sections computes service type, send descriptors and receive ids as declared |
| SignalingClient.DefaultSignalingClient.FindDeparted | chime-sdk-signaling-cpp/src/signaling/default_signaling_client.cc:392-406 | the loop over the directory in key order with its search of the frame lists the declared departed sources in that order |
| SignalingClient.DefaultSignalingClient.RefreshDirectory | chime-sdk-signaling-cpp/src/signaling/default_signaling_client.cc:392-441 | the find, erase and insert loops compute the declared departed, new and directory entries |
| SignalingClient.DefaultSignalingClient.AssignAllocations | chime-sdk-signaling-cpp/src/signaling/default_signaling_client.cc:534-552 | the loop with its early exit computes the declared allocation |
| SignalingClient.DefaultSignalingClient.HandleDataMessageFrame | chime-sdk-signaling-cpp/src/signaling/default_signaling_client.cc:558-593 | the loop partitions the frame and each non-empty part is reported once |
| SignalingClient.DefaultSignalingClient.OnSignalFrameReceived | chime-sdk-signaling-cpp/src/signaling/default_signaling_client.cc:270-304 | every frame is handled as its type says: one machine step of the client, and for audio frames the steps of the adapter |
| SignalingClient.DefaultSignalingClient.Guarantees | chime-sdk-signaling-cpp/src/signaling/default_signaling_client.h:92-104 | for the fields of any reachable client: session, local side and directory are what the inputs say, answers are passed on, a view kept is the directory, subscriptions hold their first stream, frames form the wire language and carry the mute flag |
| SignalingClient.DefaultSignalingClient.GuaranteesNext | chime-sdk-signaling-cpp/src/signaling/default_signaling_client.cc:378-468 | a video event of such a client is sent for an effective index frame, Started with live credentials |
| SignalingWire.WireLanguage | chime-sdk-signaling-cpp/src/signaling/default_signaling_client.cc:114-135 | in every run the frames sent are blocks of JOIN, then SUBSCRIBE, DATA_MESSAGE and AUDIO_CONTROL, then at most one LEAVE |
| SignalingWire.LanguageIsLocal | chime-sdk-signaling-cpp/src/signaling/default_signaling_client.cc:114-135 | a list of frames is such a word exactly when it starts with a JOIN and only a JOIN follows a LEAVE |
| SignalingWire.SendsAtMostOne | chime-sdk-signaling-cpp/src/signaling/default_signaling_client.cc:168-169 | one input sends at most one frame, a JOIN exactly on connecting and any other frame only while connected |
| SignalingWire.MuteAgreement | chime-sdk-signaling-cpp/src/signaling/default_signaling_client.cc:595-610 | while connected a mute flag on the wire is the client's; AUDIO_CONTROL values of a connection strictly alternate |
| SignalingWire.MuteAgreesOnceSubscribed | chime-sdk-signaling-cpp/src/signaling/default_signaling_client.cc:240 | after the first SUBSCRIBE of a connection the wire carries the client's flag, an unset one meaning unmuted |
| SignalingIndex.IndexDiffExact | chime-sdk-signaling-cpp/src/signaling/default_signaling_client.cc:392-441 | after an index frame the keys are its attendees, new is frame minus old and gone is old minus frame |
| SignalingIndex.NewSourcesExact | chime-sdk-signaling-cpp/src/signaling/default_signaling_client.cc:412-434 | newly available attendees are listed once each, with external id, bitrate and stream id of their first source in the frame |
| SignalingIndex.DepartedExact | chime-sdk-signaling-cpp/src/signaling/default_signaling_client.cc:392-406 | unavailable sources carry the stored names and bitrate and no stream id |
| SignalingIndex.IndexEntriesExact | chime-sdk-signaling-cpp/src/signaling/default_signaling_client.cc:412-441 | names, group and bitrate come from the attendee's last source, the stream id from the entry that introduced it |
| SignalingSources.NewSourcesReported | chime-sdk-signaling-cpp/src/signaling/default_signaling_client.cc:412-434 | new sources are one for each source that introduces an attendee, at its rank, with its attendee and external id, bitrate and stream id |
| SignalingSources.GoneReported | chime-sdk-signaling-cpp/src/signaling/default_signaling_client.cc:392-406 | after any run unavailable sources are the attendees of the last index frame missing from this one, in map order, with the external id and bitrate that frame gave last and stream id zero |
| SignalingSources.DirectoryEntryFollowsInputs | chime-sdk-signaling-cpp/src/signaling/default_signaling_client.cc:412-441 | in every run an entry has external id, group and bitrate of the last source in the last effective index frame and the stream id of the source that introduced the attendee |
| SignalingSources.IndexReports | chime-sdk-signaling-cpp/src/signaling/default_signaling_client.cc:378-469 | after any run an index frame sends exactly Started with the latest credentials and the new sources, or Available and Unavailable with new and missing ones, or nothing, as the inputs so far decide |
| SignalingIndex.DirectoryKeyed | chime-sdk-signaling-cpp/src/signaling/default_signaling_client.cc:393-410 | in every run each directory key is the attendee id its entry stores, which the erasing relies on |
| SignalingIndex.SyncStep | chime-sdk-signaling-cpp/src/signaling/default_signaling_client.cc:443-468 | one input keeps the observer's view equal to the directory exactly when it is safe in the state it meets |
| SignalingIndex.ObserverView | chime-sdk-signaling-cpp/src/signaling/default_signaling_client.cc:378-469 | over any run the view is the directory after every input if and only if every input is safe |
| SignalingIndex.CleanSessionView | chime-sdk-signaling-cpp/src/signaling/default_signaling_client.cc:378-469 | in a session that starts with an empty directory and valid credentials, view, directory and last index frame name the same attendees |
| SignalingIndex.StartedOmitsKnownSources | chime-sdk-signaling-cpp/src/signaling/default_signaling_client.cc:452-457 | after a reconnect Started lists none of the attendees known before |
| SignalingView.DirectoryFollowsInputs | chime-sdk-signaling-cpp/src/signaling/default_signaling_client.cc:326-335 | the directory's keys are the attendees of the last index frame that took effect since the last leave acknowledgement, and the first-index flag means one took effect since the last close |
| SignalingView.KeepsViewIsSyncSafe | chime-sdk-signaling-cpp/src/signaling/default_signaling_client.cc:443-457 | an input is safe exactly when it meets a condition on the inputs before it |
| SignalingView.ViewFollowsInputsIff | chime-sdk-signaling-cpp/src/signaling/default_signaling_client.cc:378-469 | over any run the view follows the accepted index frames after every input if and only if every input meets that condition |
| SignalingView.ReconnectLosesView | chime-sdk-signaling-cpp/src/signaling/default_signaling_client.cc:326-335 | a run, session, close and the same session again, that ends with the attendee in the directory and an observer who knows nobody |
| SignalingView.StartedIff | chime-sdk-signaling-cpp/src/signaling/default_signaling_client.cc:443-457 | in every run Started was sent once since the last close if the first effective index frame since came within the credentials' time to live, and otherwise never |
| SignalingView.FirstIndexDecides | chime-sdk-signaling-cpp/src/signaling/default_signaling_client.cc:446-449 | once an index frame took effect, no input before the transport closes changes how often Started was sent |
| SignalingView.ExpiredFirstIndex | chime-sdk-signaling-cpp/src/signaling/default_signaling_client.cc:446-449 | a run whose first index frame takes effect after the credentials expired and that never starts before a close |
| SignalingSession.SessionFollowsInputs | chime-sdk-signaling-cpp/src/signaling/default_signaling_client.cc:306-335 | connection flag, join flag, credentials and expiry are what the inputs so far say |
| SignalingSession.SessionGating | chime-sdk-signaling-cpp/src/signaling/default_signaling_client.cc:378-388 | Started, Available and Unavailable only while connected and after a complete JOIN_ACK since Stopped; Started with its credentials and within its ttl |
| SignalingSession.IndexAcceptedIff | chime-sdk-signaling-cpp/src/signaling/default_signaling_client.cc:379-388 | an index frame takes effect exactly when connected, joined and not at capacity, read off the inputs |
| SignalingSession.StartsStep | chime-sdk-signaling-cpp/src/signaling/default_signaling_client.cc:443-457 | an input sends Started exactly when it is the first accepted index frame and the credentials are valid |
| SignalingStreams.NoInventedStream | chime-sdk-signaling-cpp/src/signaling/default_signaling_client.cc:200-222 | in every run each receive stream id of a SUBSCRIBE is zero or was advertised in an accepted index frame before |
| SignalingStreams.SubscribedStreamOrigin | chime-sdk-signaling-cpp/src/signaling/default_signaling_client.cc:139-166 | in every run a mid is subscribed exactly when requested effectively since it was last removed, and holds the stream the first such request found |
| SignalingStreams.SubscriptionChange | chime-sdk-signaling-cpp/src/signaling/default_signaling_client.cc:139-166 | what one request does to each field of a subscription |
| SignalingStreams.RequestedStreamIff | chime-sdk-signaling-cpp/src/signaling/default_signaling_client.cc:139-161 | after a request the mid holds the requested attendee's stream exactly when it was free or the first request since its removal found the same stream |
| SignalingExamples.MovedMidKeepsStream | chime-sdk-signaling-cpp/src/signaling/default_signaling_client.cc:139-161 | a run in which a mid is asked for one attendee and then another, and the SUBSCRIBE still asks for the stream of the first |
| SignalingLocal.LocalFollowsInputs | chime-sdk-signaling-cpp/src/signaling/default_signaling_client.cc:50-75 | in every run offer, state and mute flag are those asked for last, and the local sources those added and not removed since or left behind, with the bitrate asked for last |
| SignalingLocal.IdsFollowInputs | chime-sdk-signaling-cpp/src/signaling/default_signaling_client.cc:534-552 | in every run a local source has the ids the acknowledgements since it was added allocated to it last |
| SignalingReceive.ReceiveIdAt | chime-sdk-signaling-cpp/src/signaling/default_signaling_client.cc:179-222 | the receive ids are those of the receiving sections in order: zero for local audio and inactive video, else the stream of the subscribed mid |
| SignalingReceive.SubscribeFollowsInputs | chime-sdk-signaling-cpp/src/signaling/default_signaling_client.cc:168-245 | after any run a SUBSCRIBE carries the offer set last; at the rank of each asking section the stream its first request found, at that of each sending section its ids and bitrate; audio host and mute flag as configured and asked for |
| SignalingReceive.EndedSourceIsGone | chime-sdk-signaling-cpp/src/signaling/default_signaling_client.cc:622-627 | a local source removed or left behind and not added again has no descriptor in any later SUBSCRIBE |
| SignalingReports.FramesFollowInputs | chime-sdk-signaling-cpp/src/signaling/default_signaling_client.cc:77-268 | in every run one more input sends exactly the frame the inputs so far call for, in literal values: JOIN with version 2, 25 videos and its flags, a valid message, a mute change, LEAVE |
| SignalingReports.EventsFollowInputs | chime-sdk-signaling-cpp/src/signaling/default_signaling_client.cc:306-335 | in every run one more input that is no index frame makes exactly the reports the inputs so far call for |
| SignalingReports.AnswersFollowInputs | chime-sdk-signaling-cpp/src/signaling/default_signaling_client.cc:523-556 | in every run observers are given exactly the answers received, each once and in order |
| SignalingOffer.DuplexIff | chime-sdk-signaling-cpp/src/signaling/default_signaling_client.cc:179-202 | a SUBSCRIBE is DUPLEX exactly when a sending direction line stands in the session part or in a description up to which the last audio or video type is video |
| SignalingOffer.AudioOnlyDuplexIff | chime-sdk-signaling-cpp/src/signaling/default_signaling_client.cc:179-202 | an offer without video is sent as DUPLEX exactly when a sending direction line stands before its first audio description |
| SignalingOffer.DataChannelOffersDuplex | chime-sdk-signaling-cpp/src/signaling/default_signaling_client.cc:179-202 | the offer of a receive-only video and a data channel is sent as DUPLEX |
| SignalingAllocations.AllocateShares | chime-sdk-signaling-cpp/src/signaling/default_signaling_client.cc:534-552 | every local source gets the last allocation at its mid's places in the answer within reach, or is left alone; nothing is assumed of answer or mids |
| SignalingAllocations.DescriptorAfterAck | chime-sdk-signaling-cpp/src/signaling/default_signaling_client.cc:532-552 | for any offer, answer and allocations, descriptor k carries the last allocation at its mid's places among the answer's local mids, or its old ids |
| SignalingAllocations.AlignmentIff | chime-sdk-signaling-cpp/src/signaling/default_signaling_client.cc:532-552 | descriptors and allocations are aligned for every list of allocations if and only if the answer's slots match the offer's senders |
| SignalingAllocations.MissingSectionShifts | chime-sdk-signaling-cpp/src/signaling/default_signaling_client.cc:535-552 | when the answer lacks the first local mid, the second descriptor carries the first allocation |
| SignalingAllocations.WellMatchedSlots | chime-sdk-signaling-cpp/src/signaling/default_signaling_client.cc:535-552 | slots match when the answer repeats the offer in types and distinct mids and local mids stand on their own type |
| SignalingAllocations.AckAlignsSubscribe | chime-sdk-signaling-cpp/src/signaling/default_signaling_client.cc:168-245 | the SUBSCRIBE a run sends after an acknowledgement and inputs that keep the offer carries the allocations in place exactly when the acknowledgement aligned them, so always with matching slots; no descriptors when no video is sent |
| SignalingAllocations.WellMatchedAckAligns | chime-sdk-signaling-cpp/src/signaling/default_signaling_client.cc:168-245 | so after a well matched answer its descriptor k carries allocation k |
| SignalingAllocations.AnswerAlignsSubscribeIff | chime-sdk-signaling-cpp/src/signaling/default_signaling_client.cc:168-245 | the SUBSCRIBE a run sends after an answer carries every list of allocations in place if and only if the answer's slots match |
| SignalingExamples.MisalignedSubscribe | chime-sdk-signaling-cpp/src/signaling/default_signaling_client.cc:532-552 | a run whose answer lacks the first of two sections and whose SUBSCRIBE carries the one allocation on the second |
| SignalingStreams.DataPartition | chime-sdk-signaling-cpp/src/signaling/default_signaling_client.cc:564-581 | each message is in exactly one of the two lists, by its ingest time, in frame order, with its topic, data, sender and the whole milliseconds of its ingest time |
| SignalingStreams.TimestampsOrdered | chime-sdk-signaling-cpp/src/signaling/default_signaling_client.cc:574 | ordered ingest times give ordered millisecond timestamps, negative ones included |
| Websocket.LibwebsocketsWebsocket.OnReceive | chime-sdk-signaling-cpp/src/websocket/libwebsockets_websocket.cc:83-96 | the bytes are buffered; the end of the final fragment delivers and clears the buffer |
| Websocket.LibwebsocketsWebsocket.OnWriteable | chime-sdk-signaling-cpp/src/websocket/libwebsockets_websocket.cc:143-165 | the queue's head is popped and written; a failed write drops it and closes the connection |
| Websocket.LibwebsocketsWebsocket.PrefixedData | chime-sdk-signaling-cpp/src/websocket/libwebsockets_websocket.cc:150-155 | the padded copy hands exactly the message to the socket |
| Websocket.LibwebsocketsWebsocket.SendBinary | chime-sdk-signaling-cpp/src/websocket/libwebsockets_websocket.cc:252-257 | the message joins the end of the queue |
| Websocket.LibwebsocketsWebsocket.Guarantees | chime-sdk-signaling-cpp/src/websocket/libwebsockets_websocket.cc:83-165 | for the buffer and queue of any reachable socket: conservation, the written prefix, and when each is empty by the callbacks |
| SocketModel.Conservation | chime-sdk-signaling-cpp/src/websocket/libwebsockets_websocket.cc:83-165 | delivered bytes and buffer are all bytes received, popped messages and queue all submitted, written is popped less one per error |
| SocketModel.WrittenPrefix | chime-sdk-signaling-cpp/src/websocket/libwebsockets_websocket.cc:143-165 | without write errors the written messages are a prefix of the submitted ones, all exactly when the queue has drained |
| SocketReconnect.ErrorsAreFailedWrites | chime-sdk-signaling-cpp/src/websocket/libwebsockets_websocket.cc:158-163 | the errors are exactly the writes that returned -1 while a message was waiting |
| SocketModel.MessageArrives | chime-sdk-signaling-cpp/src/websocket/libwebsockets_websocket.cc:83-96 | however a message is cut into frames and pieces, it is delivered whole behind what the buffer held |
| SocketModel.MessagesArrive | chime-sdk-signaling-cpp/src/websocket/libwebsockets_websocket.cc:83-96 | arbitrarily fragmented messages arriving on an empty buffer are delivered unchanged and in order |
| SocketReconnect.NextConnectionIntactIff | chime-sdk-signaling-cpp/src/websocket/libwebsockets_websocket.cc:90-117 | in every run the first message after a reconnect is intact exactly when no bytes arrived since the last complete message |
| SocketReconnect.StaleByteInFront | chime-sdk-signaling-cpp/src/websocket/libwebsockets_websocket.cc:90-117 | a run that delivers a byte of the last connection in front of the first message of the next |
| SocketReconnect.FirstWriteIff | chime-sdk-signaling-cpp/src/websocket/libwebsockets_websocket.cc:108-165 | in every run the first message written after a reconnect is the one submitted on connecting exactly when none was waiting, else the oldest waiting |
| Transport.WebsocketSignalingTransport.SendSignalFrame | chime-sdk-signaling-cpp/src/transport/websocket_signaling_transport.cc:33-59 | a frame that serialises is queued behind the type byte 2, one that does not is reported and not queued |
| Transport.WebsocketSignalingTransport.OnWebsocketBinaryReceived | chime-sdk-signaling-cpp/src/transport/websocket_signaling_transport.cc:102-121 | a message of two bytes or more that parses without its first byte reaches the observer, any other is dropped |
| Channel.ChannelDelivers | chime-sdk-signaling-cpp/src/transport/websocket_signaling_transport.cc:42-58 | framing, queueing, fragmenting, reassembling and unframing deliver exactly the non-empty payloads written, in order |
| Channel.FramesDelivered | chime-sdk-signaling-cpp/src/transport/websocket_signaling_transport.cc:102-120 | with an inverse serialiser the receiver is handed the frames sent, a prefix at any moment and all once the queue drained |
| SystemChannel.FarEndSeesWireLanguage | chime-sdk-signaling-cpp/src/signaling/default_signaling_client.cc:114-135 | over any client run the far end, all connections together, is handed a prefix of the frames sent, itself a word of the wire language |
| SystemChannel.NextConnectionIff | chime-sdk-signaling-cpp/src/signaling/default_signaling_client.cc:306-310 | what one connection carries is a word of the wire language exactly when it is empty, nothing was waiting, or the oldest frame waiting is a JOIN; its own JOIN comes first if nothing was waiting |
| SystemChannel.StaleLeaveFirst | chime-sdk-signaling-cpp/src/signaling/default_signaling_client.cc:129-135 | a run in which the LEAVE of one connection goes out on the next, in front of its JOIN |

## Left out

- libwebsockets itself, TLS certificates, URL parsing, retries and context handling: foreign calls. That a queued message is ever written is not claimed.
- Protobuf encoding and timestamps: frames are datatypes, absent optional fields read as their defaults, and serialising and parsing are an inverse pair.
- SendSubscribe: a frame that fails to serialise makes the source return false, here as for every other send the client model takes the frame as put on the wire; the transport model has the failure.
- The `is_stopped_` flag of the transport with `Start`, `Stop` and its close and error callbacks, which forward to the socket and the observer.
- `Runnable` threads and observers that add or remove observers or call back while being notified: observers are a trace of events.
- OnLeaveAck: the transport close that `Close` may trigger synchronously is a separate input after the leave acknowledgement.
- Float rounding in the two normalisation functions. For raw volumes from 2^31 + 1 to 2^31 + 14 a signed subtraction overflows, which C++ leaves undefined; the model has it wrap around.
- Logging, debug strings, factories, configuration structs and the demo programs.
