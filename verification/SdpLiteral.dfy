/** One session description parsed character by character. */
module SdpLiteral {
  import opened Common
  import opened SdpText
  import opened Sdp

  lemma {:induction false} ThreeKnownLines(one: string, two: string, three: string, kind: MediaType, mid: string)
    requires Classify(one) == KindLine(kind) && Classify(two) == MidLine(mid)
    requires Classify(three) == DirectionLine(SendRecv)
    ensures SectionsOf([one, two, three, ""]) == [MediaSection(kind, mid, SendRecv)]
  {
    OneLine([], one);
    OneLine([one], two);
    OneLine([one] + [two], three);
    assert Classify("").OtherLine?;
    OneLine([one] + [two] + [three], "");
    assert [one] + [two] + [three] + [""] == [one, two, three, ""] && [] + [one] == [one];
  }

  lemma {:induction false} JoinOfFour(one: string, two: string, three: string, four: string, d: string)
    ensures Join([one, two, three, four], d) == one + d + (two + d + (three + d + four))
  {
    JoinCons(three, [four], d);
    JoinCons(two, [three, four], d);
    JoinCons(one, [two, three, four], d);
    assert [three] + [four] == [three, four] && [two] + [three, four] == [two, three, four];
    assert [one] + [two, three, four] == [one, two, three, four];
    assert one + d + (two + d + (three + d + four)) == one + d + Join([two, three, four], d);
  }

  lemma {:induction false} LiteralLines()
    ensures Classify("m=audio 9") == KindLine(Audio)
    ensures Classify("a=mid:0") == MidLine("0")
    ensures Classify("a=sendrecv") == DirectionLine(SendRecv)
    ensures AllFree(["m=audio 9", "a=mid:0", "a=sendrecv", ""], CRLF)
  {
    AnnouncingLines("m=audio 9", "");
    AnnouncingLines("a=mid:0", "0");
    DirectionReadByEquality("a=sendrecv");
    WithoutReturnIsFree("m=audio 9");
    WithoutReturnIsFree("a=mid:0");
    WithoutReturnIsFree("a=sendrecv");
    WithoutReturnIsFree("");
  }

  lemma LiteralText()
    ensures "m=audio 9" + CRLF + ("a=mid:0" + CRLF + ("a=sendrecv" + CRLF + ""))
         == "m=audio 9\r\na=mid:0\r\na=sendrecv\r\n"
  {
  }

  lemma {:induction false} SectionsOfFour(one: string, two: string, three: string, text: string)
    requires AllFree([one, two, three, ""], CRLF) && text == one + CRLF + (two + CRLF + (three + CRLF + ""))
    ensures Sections(text) == SectionsOf([one, two, three, ""])
  {
    JoinOfFour(one, two, three, "", CRLF);
    CrlfRoundTrip("", [one, two, three, ""]);
  }

  /** One document, character by character. */
  lemma {:induction false} LiteralDocument()
    ensures Sections("m=audio 9\r\na=mid:0\r\na=sendrecv\r\n") == [MediaSection(Audio, "0", SendRecv)]
  {
    LiteralLines();
    LiteralText();
    SectionsOfFour("m=audio 9", "a=mid:0", "a=sendrecv", "m=audio 9\r\na=mid:0\r\na=sendrecv\r\n");
    ThreeKnownLines("m=audio 9", "a=mid:0", "a=sendrecv", Audio, "0");
  }
}
