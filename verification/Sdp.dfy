/** `SDPUtils::ParseSDP`: the media sections of a session description, read line by line. */
module Sdp {
  import opened Common
  import opened SdpText

  datatype MediaType = Audio | Video

  datatype MediaDirection = Inactive | SendOnly | RecvOnly | SendRecv

  datatype MediaSection = MediaSection(kind: MediaType, mid: string, direction: MediaDirection)

  const AUDIO: string := "m=audio"
  const VIDEO: string := "m=video"
  const MID: string := "a=mid:"
  const REC_ONLY: string := "a=recvonly"
  const SEND_ONLY: string := "a=sendonly"
  const INACTIVE: string := "a=inactive"
  const SEND_RECV: string := "a=sendrecv"

  /** `line.find(prefix, 0) == 0`. */
  predicate StartsWith(line: string, prefix: string) {
    |prefix| <= |line| && line[..|prefix|] == prefix
  }

  /** `SDPUtils::GetDirection`: three exact comparisons, everything else is send-receive. */
  function GetDirection(line: string): MediaDirection {
    if line == REC_ONLY then RecvOnly
    else if line == INACTIVE then Inactive
    else if line == SEND_ONLY then SendOnly
    else SendRecv
  }

  datatype LineKind = KindLine(kind: MediaType) | MidLine(mid: string) | DirectionLine(direction: MediaDirection)
      | OtherLine

  function Classify(line: string): LineKind {
    if StartsWith(line, AUDIO) then KindLine(Audio)
    else if StartsWith(line, VIDEO) then KindLine(Video)
    else if StartsWith(line, MID) then MidLine(line[|MID|..])
    else if StartsWith(line, REC_ONLY) || StartsWith(line, SEND_ONLY) || StartsWith(line, INACTIVE)
         || StartsWith(line, SEND_RECV) then DirectionLine(GetDirection(line))
    else OtherLine
  }

  // ----- What the lines say, independently of the loop -----

  /** The media type announced last in `lines`; video before any announcement. */
  function KindAfter(lines: seq<string>): MediaType {
    if lines == [] then Video
    else match Classify(Last(lines))
      case KindLine(kind) => kind
      case _ => KindAfter(Init(lines))
  }

  /** The mid announced last in `lines`; empty before any announcement. */
  function MidAfter(lines: seq<string>): string {
    if lines == [] then ""
    else match Classify(Last(lines))
      case MidLine(mid) => mid
      case _ => MidAfter(Init(lines))
  }

  /** One section per direction line, carrying the type and mid in force at that line. */
  function SectionsOf(lines: seq<string>): seq<MediaSection> {
    if lines == [] then []
    else
      var before := SectionsOf(Init(lines));
      match Classify(Last(lines))
      case DirectionLine(direction) => before + [MediaSection(KindAfter(Init(lines)), MidAfter(Init(lines)), direction)]
      case _ => before
  }

  function Sections(sdp: string): seq<MediaSection> {
    SectionsOf(Tokens(sdp, CRLF))
  }

  /** `SDPUtils::ParseSDP`. */
  method ParseSdp(sdp: string) returns (sections: seq<MediaSection>)
    ensures sections == Sections(sdp) == SectionsOf(Tokens(sdp, "\r\n"))
  {
    var lines := Split(sdp, CRLF);
    sections := [];
    var isAudioSection := false;
    var mid := "";
    for i := 0 to |lines|
      invariant isAudioSection <==> KindAfter(lines[..i]) == Audio
      invariant mid == MidAfter(lines[..i])
      invariant sections == SectionsOf(lines[..i])
    {
      var line := lines[i];
      assert Init(lines[..i + 1]) == lines[..i];
      if StartsWith(line, AUDIO) {
        isAudioSection := true;
      } else if StartsWith(line, VIDEO) {
        isAudioSection := false;
      } else if StartsWith(line, MID) {
        mid := line[|MID|..];
      } else if StartsWith(line, REC_ONLY) || StartsWith(line, SEND_ONLY) || StartsWith(line, INACTIVE)
             || StartsWith(line, SEND_RECV) {
        sections := sections + [MediaSection(if isAudioSection then Audio else Video, mid, GetDirection(line))];
      }
    }
    assert lines[..|lines|] == lines;
  }

  // ----- What a section is, line by line -----

  predicate IsDirection(line: string) {
    Classify(line).DirectionLine?
  }

  function DirectionCount(lines: seq<string>): nat {
    if lines == [] then 0 else DirectionCount(Init(lines)) + if IsDirection(Last(lines)) then 1 else 0
  }

  /** The section made by direction line `p` stands where `p` ranks among the direction lines. */
  lemma {:induction false} SectionOfLine(lines: seq<string>, p: nat)
    requires p < |lines| && IsDirection(lines[p])
    ensures |SectionsOf(lines)| == DirectionCount(lines)
    ensures DirectionCount(lines[..p]) < DirectionCount(lines)
    ensures SectionsOf(lines)[DirectionCount(lines[..p])]
         == MediaSection(KindAfter(lines[..p]), MidAfter(lines[..p]), GetDirection(lines[p]))
  {
    SectionCount(lines);
    SectionCount(Init(lines));
    if p == |lines| - 1 {
      assert lines[..p] == Init(lines);
    } else {
      SectionOfLine(Init(lines), p);
      assert Init(lines)[..p] == lines[..p];
    }
  }

  lemma {:induction false} SectionCount(lines: seq<string>)
    ensures |SectionsOf(lines)| == DirectionCount(lines)
  {
    if lines != [] {
      SectionCount(Init(lines));
    }
  }

  /** `MidAfter` is the mid of line `q` once no later line carries one, and `KindAfter` likewise. */
  lemma {:induction false} LatestAnnouncement(lines: seq<string>, q: nat)
    requires q < |lines|
    ensures Classify(lines[q]).MidLine? && (forall k | q < k < |lines| :: !Classify(lines[k]).MidLine?)
            ==> MidAfter(lines) == Classify(lines[q]).mid
    ensures Classify(lines[q]).KindLine? && (forall k | q < k < |lines| :: !Classify(lines[k]).KindLine?)
            ==> KindAfter(lines) == Classify(lines[q]).kind
  {
    if q < |lines| - 1 {
      LatestAnnouncement(Init(lines), q);
    }
  }

  /**
   * A direction attribute is recognised by its prefix but read by equality: only the exact three words give their
   * direction, and any other recognised line, such as "a=recvonly " with a trailing blank, counts as send-receive.
   */
  lemma {:induction false} DirectionReadByEquality(line: string)
    ensures Classify(line) == DirectionLine(RecvOnly) <==> line == "a=recvonly"
    ensures Classify(line) == DirectionLine(SendOnly) <==> line == "a=sendonly"
    ensures Classify(line) == DirectionLine(Inactive) <==> line == "a=inactive"
    ensures Classify(line) == DirectionLine(SendRecv) <==>
            "a=sendrecv" <= line
            || ("a=recvonly" <= line && line != "a=recvonly")
            || ("a=sendonly" <= line && line != "a=sendonly")
            || ("a=inactive" <= line && line != "a=inactive")
  {
    assert AUDIO[0] == VIDEO[0] == 'm';
    assert MID[0] == REC_ONLY[0] == SEND_ONLY[0] == INACTIVE[0] == SEND_RECV[0] == 'a';
    assert MID[2] == 'm' && REC_ONLY[2] == 'r' && SEND_ONLY[2] == SEND_RECV[2] == 's' && INACTIVE[2] == 'i';
    assert SEND_ONLY[6] == 'o' && SEND_RECV[6] == 'r';
  }

  /** The lines that announce a type or a mid, and which. */
  lemma {:induction false} AnnouncingLines(line: string, mid: string)
    ensures Classify(line) == KindLine(Audio) <==> "m=audio" <= line
    ensures Classify(line) == KindLine(Video) <==> "m=video" <= line
    ensures Classify(line) == MidLine(mid) <==> line == "a=mid:" + mid
  {
    assert AUDIO[2] == 'a' && VIDEO[2] == 'v' && AUDIO[0] == VIDEO[0] == 'm' && MID[0] == 'a';
    if StartsWith(line, MID) {
      assert line == line[..|MID|] + line[|MID|..];
    }
    if line == "a=mid:" + mid {
      assert line[..|MID|] == MID && line[|MID|..] == mid && line[0] == 'a';
    }
  }

  // ----- Round trip through printed descriptions -----

  /** Any lines the parser ignores. */
  predicate Ignored(lines: seq<string>) {
    forall i | 0 <= i < |lines| :: Free(lines[i], CRLF) && Classify(lines[i]).OtherLine?
  }

  /**
   * One media description: its m-line, mid line and direction line with three groups of ignored lines, the mid line in
   * front of the direction line or after it.
   */
  datatype Description = Description(
    before: seq<string>, mediaTail: string, middle: seq<string>, between: seq<string>, midFirst: bool,
    section: MediaSection)
  {
    predicate Valid() {
      && Ignored(before) && Ignored(middle) && Ignored(between)
      && Free(mediaTail, CRLF) && Free(section.mid, CRLF)
    }

    function MediaLine(): string {
      (if section.kind == Audio then AUDIO else VIDEO) + mediaTail
    }

    function MidText(): string {
      MID + section.mid
    }

    function Lines(): seq<string> {
      before + [MediaLine()] + middle
      + [if midFirst then MidText() else DirectionText(section.direction)] + between
      + [if midFirst then DirectionText(section.direction) else MidText()]
    }

    /** The section parsed when `mid` is in force where the description starts. */
    function Parsed(mid: string): MediaSection {
      if midFirst then section else section.(mid := mid)
    }
  }

  function DirectionText(d: MediaDirection): string {
    match d
    case Inactive => INACTIVE
    case SendOnly => SEND_ONLY
    case RecvOnly => REC_ONLY
    case SendRecv => SEND_RECV
  }

  function DocumentLines(descriptions: seq<Description>, after: seq<string>): seq<string> {
    if descriptions == [] then after
    else descriptions[0].Lines() + DocumentLines(descriptions[1..], after)
  }

  function Print(descriptions: seq<Description>, after: seq<string>): string {
    var lines := DocumentLines(descriptions, after);
    if lines == [] then "" else Join(lines, CRLF)
  }

  function SectionsDescribed(descriptions: seq<Description>): seq<MediaSection> {
    seq(|descriptions|, i requires 0 <= i < |descriptions| => descriptions[i].section)
  }

  lemma {:induction false} IgnoredLines(lines: seq<string>, ignored: seq<string>)
    requires Ignored(ignored)
    ensures KindAfter(lines + ignored) == KindAfter(lines)
    ensures MidAfter(lines + ignored) == MidAfter(lines)
    ensures SectionsOf(lines + ignored) == SectionsOf(lines)
  {
    if ignored == [] {
      assert lines + ignored == lines;
    } else {
      IgnoredLines(lines, Init(ignored));
      assert Init(lines + ignored) == lines + Init(ignored);
    }
  }

  /** What one more line does to the parse. */
  lemma OneLine(lines: seq<string>, line: string)
    ensures KindAfter(lines + [line]) == if Classify(line).KindLine? then Classify(line).kind else KindAfter(lines)
    ensures MidAfter(lines + [line]) == if Classify(line).MidLine? then Classify(line).mid else MidAfter(lines)
    ensures SectionsOf(lines + [line]) ==
            SectionsOf(lines)
            + if Classify(line).DirectionLine?
              then [MediaSection(KindAfter(lines), MidAfter(lines), Classify(line).direction)] else []
  {
    assert Init(lines + [line]) == lines && Last(lines + [line]) == line;
    assert SectionsOf(lines) + [] == SectionsOf(lines);
  }

  lemma {:induction false} PrintedLines(kind: MediaType, tail: string, mid: string, d: MediaDirection)
    ensures Classify((if kind == Audio then AUDIO else VIDEO) + tail) == KindLine(kind)
    ensures Classify(MID + mid) == MidLine(mid)
    ensures Classify(DirectionText(d)) == DirectionLine(d)
  {
    var line := MID + mid;
    assert line[..|MID|] == MID && line[|MID|..] == mid && line[0] == 'a';
    var m := (if kind == Audio then AUDIO else VIDEO) + tail;
    assert m[..|AUDIO|] == if kind == Audio then AUDIO else VIDEO;
    assert AUDIO[2] == 'a' && VIDEO[2] == 'v' && AUDIO[0] == VIDEO[0] == 'm';
    DirectionReadByEquality(DirectionText(d));
  }

  /** After the m-line of a description and the ignored lines behind it only the type has changed. */
  lemma {:induction false} MediaAnnounced(lines: seq<string>, d: Description)
    requires d.Valid()
    ensures var all := lines + d.before + [d.MediaLine()] + d.middle;
            SectionsOf(all) == SectionsOf(lines) && KindAfter(all) == d.section.kind && MidAfter(all) == MidAfter(lines)
  {
    PrintedLines(d.section.kind, d.mediaTail, d.section.mid, d.section.direction);
    IgnoredLines(lines, d.before);
    OneLine(lines + d.before, d.MediaLine());
    assert SectionsOf(lines) + [] == SectionsOf(lines);
    IgnoredLines(lines + d.before + [d.MediaLine()], d.middle);
  }

  /** The last two lines of a description, in either order, add one section and leave the mid in force. */
  lemma {:induction false} MidAndDirection(lines: seq<string>, d: Description)
    requires d.Valid() && KindAfter(lines) == d.section.kind
    ensures var first := if d.midFirst then d.MidText() else DirectionText(d.section.direction);
            var second := if d.midFirst then DirectionText(d.section.direction) else d.MidText();
            var all := lines + [first] + d.between + [second];
            SectionsOf(all) == SectionsOf(lines) + [d.Parsed(MidAfter(lines))] && MidAfter(all) == d.section.mid
  {
    var first := if d.midFirst then d.MidText() else DirectionText(d.section.direction);
    var second := if d.midFirst then DirectionText(d.section.direction) else d.MidText();
    PrintedLines(d.section.kind, d.mediaTail, d.section.mid, d.section.direction);
    OneLine(lines, first);
    IgnoredLines(lines + [first], d.between);
    OneLine(lines + [first] + d.between, second);
    assert SectionsOf(lines) + [] == SectionsOf(lines);
    var one := SectionsOf(lines) + [d.Parsed(MidAfter(lines))];
    assert one + [] == one;
  }

  /** Whatever came before, a description adds one section and leaves its mid in force. */
  lemma {:induction false} DescriptionAddsSection(lines: seq<string>, d: Description)
    requires d.Valid()
    ensures SectionsOf(lines + d.Lines()) == SectionsOf(lines) + [d.Parsed(MidAfter(lines))]
    ensures MidAfter(lines + d.Lines()) == d.section.mid
  {
    var announced := lines + d.before + [d.MediaLine()] + d.middle;
    MediaAnnounced(lines, d);
    MidAndDirection(announced, d);
    var first := if d.midFirst then d.MidText() else DirectionText(d.section.direction);
    var second := if d.midFirst then DirectionText(d.section.direction) else d.MidText();
    LinesAppended(lines, d.before + [d.MediaLine()] + d.middle, first, d.between, second);
    assert lines + (d.before + [d.MediaLine()] + d.middle) == announced;
  }

  lemma LinesAppended(lines: seq<string>, a: seq<string>, x: string, b: seq<string>, y: string)
    ensures lines + (a + [x] + b + [y]) == lines + a + [x] + b + [y]
  {
  }

  /**
   * A description is parsed as it was written exactly when its mid line comes first or the mid already in force is its
   * own; otherwise its section takes that stale mid.
   */
  lemma {:induction false} KeepsOwnMidIff(lines: seq<string>, d: Description)
    requires d.Valid()
    ensures SectionsOf(lines + d.Lines()) == SectionsOf(lines) + [d.section]
            <==> d.midFirst || MidAfter(lines) == d.section.mid
    ensures !d.midFirst ==>
              SectionsOf(lines + d.Lines()) == SectionsOf(lines) + [d.section.(mid := MidAfter(lines))]
  {
    DescriptionAddsSection(lines, d);
    assert Last(SectionsOf(lines + d.Lines())) == d.Parsed(MidAfter(lines));
    assert Last(SectionsOf(lines) + [d.section]) == d.section;
  }

  /** The sections parsed from descriptions when `mid` is in force before the first. */
  function SectionsParsed(descriptions: seq<Description>, mid: string): seq<MediaSection> {
    if descriptions == [] then []
    else [descriptions[0].Parsed(mid)] + SectionsParsed(descriptions[1..], descriptions[0].section.mid)
  }

  lemma {:induction false} DocumentSections(lines: seq<string>, descriptions: seq<Description>, after: seq<string>)
    requires (forall i | 0 <= i < |descriptions| :: descriptions[i].Valid()) && Ignored(after)
    ensures SectionsOf(lines + DocumentLines(descriptions, after))
         == SectionsOf(lines) + SectionsParsed(descriptions, MidAfter(lines))
    decreases |descriptions|
  {
    if descriptions == [] {
      IgnoredLines(lines, after);
    } else {
      var d, rest := descriptions[0], descriptions[1..];
      DescriptionAddsSection(lines, d);
      DocumentSections(lines + d.Lines(), rest, after);
      AppendAssociative(lines, d.Lines(), DocumentLines(rest, after));
      AppendAssociative(SectionsOf(lines), [d.Parsed(MidAfter(lines))], SectionsParsed(rest, d.section.mid));
    }
  }

  /** Each description has its mid line first or carries the mid in force: its predecessor's, `mid` for the first. */
  predicate MidsInForce(descriptions: seq<Description>, mid: string) {
    descriptions == []
    || ((descriptions[0].midFirst || descriptions[0].section.mid == mid)
        && MidsInForce(descriptions[1..], descriptions[0].section.mid))
  }

  lemma {:induction false} ParsedIff(descriptions: seq<Description>, mid: string)
    ensures SectionsParsed(descriptions, mid) == SectionsDescribed(descriptions) <==> MidsInForce(descriptions, mid)
    decreases |descriptions|
  {
    if descriptions != [] {
      var d, rest := descriptions[0], descriptions[1..];
      ParsedIff(rest, d.section.mid);
      assert SectionsDescribed(descriptions) == [d.section] + SectionsDescribed(rest);
      assert SectionsParsed(descriptions, mid)[0] == d.Parsed(mid);
      assert SectionsParsed(descriptions, mid)[1..] == SectionsParsed(rest, d.section.mid);
      assert SectionsDescribed(descriptions)[1..] == SectionsDescribed(rest);
    }
  }

  lemma {:induction false} DescriptionCrlfFree(d: Description)
    requires d.Valid()
    ensures AllFree(d.Lines(), CRLF)
  {
    PrefixKeepsCrlfFree(if d.section.kind == Audio then AUDIO else VIDEO, d.mediaTail);
    PrefixKeepsCrlfFree(MID, d.section.mid);
    assert Free("", CRLF);
    PrefixKeepsCrlfFree(DirectionText(d.section.direction), "");
    assert DirectionText(d.section.direction) + "" == DirectionText(d.section.direction);
  }

  lemma {:induction false} DocumentCrlfFree(descriptions: seq<Description>, after: seq<string>)
    requires (forall i | 0 <= i < |descriptions| :: descriptions[i].Valid()) && Ignored(after)
    ensures AllFree(DocumentLines(descriptions, after), CRLF)
    decreases |descriptions|
  {
    if descriptions != [] {
      DescriptionCrlfFree(descriptions[0]);
      DocumentCrlfFree(descriptions[1..], after);
    }
  }

  lemma {:induction false} ParsePrinted(descriptions: seq<Description>, after: seq<string>)
    requires (forall i | 0 <= i < |descriptions| :: descriptions[i].Valid()) && Ignored(after)
    ensures Sections(Print(descriptions, after)) == SectionsParsed(descriptions, "")
  {
    var lines := DocumentLines(descriptions, after);
    DocumentSections([], descriptions, after);
    assert [] + lines == lines;
    if lines == [] {
      assert Tokens("", CRLF) == [""];
      assert Init([""]) == [] && SectionsOf([""]) == [];
    } else {
      DocumentCrlfFree(descriptions, after);
      CrlfRoundTrip("", lines);
    }
  }

  /**
   * Round trip. A printed list of descriptions, the mid line on either side of the direction line and any ignored lines
   * around them, parses back to its sections if and only if every description has its mid line first or carries the mid
   * the description before it left in force.
   */
  lemma {:induction false} ParsePrintRoundTripIff(descriptions: seq<Description>, after: seq<string>)
    requires (forall i | 0 <= i < |descriptions| :: descriptions[i].Valid()) && Ignored(after)
    ensures Sections(Print(descriptions, after)) == SectionsDescribed(descriptions) <==> MidsInForce(descriptions, "")
  {
    ParsePrinted(descriptions, after);
    ParsedIff(descriptions, "");
  }

  lemma {:induction false} MidFirstInForce(descriptions: seq<Description>, mid: string)
    requires forall i | 0 <= i < |descriptions| :: descriptions[i].midFirst
    ensures MidsInForce(descriptions, mid)
    decreases |descriptions|
  {
    if descriptions != [] {
      MidFirstInForce(descriptions[1..], descriptions[0].section.mid);
    }
  }

  /** In particular every list of descriptions with the mid line first comes back in order. */
  lemma {:induction false} ParsePrintRoundTrip(descriptions: seq<Description>, after: seq<string>)
    requires (forall i | 0 <= i < |descriptions| :: descriptions[i].Valid() && descriptions[i].midFirst)
        && Ignored(after)
    ensures Sections(Print(descriptions, after)) == SectionsDescribed(descriptions)
  {
    ParsePrintRoundTripIff(descriptions, after);
    MidFirstInForce(descriptions, "");
  }

  // ----- Direction lines before any audio or video -----

  /** No audio or video m-line. */
  predicate NoKind(lines: seq<string>) {
    forall i | 0 <= i < |lines| :: !Classify(lines[i]).KindLine?
  }

  lemma {:induction false} NoKindIsVideo(lines: seq<string>)
    requires NoKind(lines)
    ensures KindAfter(lines) == Video
  {
    if lines != [] {
      NoKindIsVideo(Init(lines));
      assert Classify(lines[|lines| - 1]) == Classify(Last(lines));
    }
  }

  /** A direction line before any audio or video m-line makes a video section of its own, whatever follows. */
  lemma {:induction false} SessionDirectionIsVideo(session: seq<string>, rest: seq<string>, p: nat)
    requires NoKind(session) && p < |session| && IsDirection(session[p])
    ensures DirectionCount(session[..p]) < |SectionsOf(session + rest)|
    ensures var s := SectionsOf(session + rest)[DirectionCount(session[..p])];
            s.kind == Video && s.direction == GetDirection(session[p])
  {
    var lines := session + rest;
    assert lines[..p] == session[..p] && lines[p] == session[p];
    SectionOfLine(lines, p);
    NoKindIsVideo(session[..p]);
  }
}
