/** The way of a payload: accepted, printed into a description, edited in place
    at merge time, parsed back and accepted by the merge gate. */
module IntegrationEndToEnd {
  import opened Text
  import opened IntegrationContract
  import opened IntegrationText
  import opened IntegrationEdit
  import opened IntegrationRestore
  import opened IntegrationSection

  /** Lines in front of the fields that are neither entries nor headings. */
  predicate IsIntro(intro: Lines) {
    && NoFlagLine(intro)
    && forall i :: 0 <= i < |intro| ==> !IsEntry(intro[i]) && HeadingName(intro[i]) == ""
  }

  /** Lines behind the fields: nothing but blanks, or a plain line that ends them
      and then whatever is not a heading. */
  predicate IsOutro(outro: Lines) {
    && Ends(outro)
    && forall i :: 0 <= i < |outro| ==> HeadingName(outro[i]) == ""
  }

  predicate Ends(outro: Lines) {
    outro != [] ==>
      if Strip(outro[0]) == "" then Ends(outro[1..]) else !IsEntry(outro[0]) && outro[0] != "" && !IsSpace(outro[0][0])
  }

  /** A description that holds a printed payload. */
  datatype Printed = Printed(pre: Lines, intro: Lines, outro: Lines, post: Lines)

  function SectionOf(d: Printed, p: Payload): Lines
    requires forall f :: f in PR_FIELDS ==> f in p
  {
    d.intro + RenderLines(p, PR_FIELDS) + d.outro
  }

  function LayoutOf(d: Printed, p: Payload): Layout
    requires forall f :: f in PR_FIELDS ==> f in p
  {
    Layout(d.pre, "## " + SECTION, SectionOf(d, p), d.post)
  }

  function Description(d: Printed, p: Payload): Lines
    requires forall f :: f in PR_FIELDS ==> f in p
  {
    BodyOf(LayoutOf(d, p))
  }

  predicate Surroundings(d: Printed) {
    && IsIntro(d.intro) && IsOutro(d.outro)
    && (forall i :: 0 <= i < |d.pre| ==> Lower(HeadingName(d.pre[i])) != SECTION)
    && (d.post != [] ==> IsColumnHeading(d.post[0]))
    && (forall i :: 0 <= i < |d.post| ==> Lower(HeadingName(d.post[i])) != SECTION)
  }

  lemma IntroLineIsSkipped(line: Line)
    requires !IsEntry(line)
    ensures ParseLine(START, line) == START
  {
    hide Strip;
  }

  lemma {:induction false} IntroIsSkipped(intro: Lines)
    requires forall i :: 0 <= i < |intro| ==> !IsEntry(intro[i])
    ensures ParseFrom(START, intro) == START
  {
    hide ParseLine, IsEntry;
    if intro != [] {
      IntroIsSkipped(intro[..|intro| - 1]);
      IntroLineIsSkipped(intro[|intro| - 1]);
    }
  }

  lemma EndingLineCloses(state: Parser, line: Line)
    requires Strip(line) != "" && !IsEntry(line) && line != "" && !IsSpace(line[0]) && state.payload != map[]
    ensures ParseLine(state, line).payload == state.payload && ParseLine(state, line).closed
  {
    hide Strip;
  }

  lemma {:induction false} ClosedStays(state: Parser, lines: Lines)
    requires state.closed
    ensures ParseFrom(state, lines) == state
  {
    hide Strip, ParseEntry, Continued;
    if lines != [] {
      ClosedStays(state, lines[..|lines| - 1]);
    }
  }

  lemma {:induction false} OutroChangesNothing(state: Parser, outro: Lines)
    requires Ends(outro) && state.payload != map[]
    ensures ParseFrom(state, outro).payload == state.payload
  {
    hide ParseLine, Strip, IsEntry;
    if outro != [] {
      assert outro == [outro[0]] + outro[1..];
      ParseConcat(state, [outro[0]], outro[1..]);
      ParseOfOne(state, outro[0]);
      if Strip(outro[0]) == "" {
        BlankLineIsSkipped(state, outro[0]);
        OutroChangesNothing(state, outro[1..]);
      } else {
        EndingLineCloses(state, outro[0]);
        ClosedStays(ParseLine(state, outro[0]), outro[1..]);
      }
    }
  }

  predicate Complete(p: Payload) {
    PlainPayload(p, PR_FIELDS) && forall f :: f in p ==> f in PR_FIELDS
  }

  /** Parsing a printed section yields the payload. */
  lemma PrintedIsParsed(d: Printed, p: Payload)
    requires Surroundings(d) && Complete(p)
    ensures ParseSection(SectionOf(d, p)) == p
  {
    hide ParseLine, PlainValue, RenderLine, HeadingName, NoFlagLine, IsEntry, Ends;
    IntroIsSkipped(d.intro);
    var printed := RenderLines(p, PR_FIELDS);
    ParseConcat(START, d.intro, printed);
    ParseRenderedLines(p, PR_FIELDS);
    assert Restrict(p, PR_FIELDS) == p;
    assert PR_FIELDS[0] in p;
    ParseConcat(START, d.intro + printed, d.outro);
    OutroChangesNothing(ParseFrom(START, d.intro + printed), d.outro);
  }

  lemma PrintedLineIsNoHeading(f: Field, v: string)
    requires PlainValue(v)
    ensures HeadingName(RenderLine(f, v)) == ""
  {
    hide Strip, FieldName;
    RenderedLineIsTrimmed(f, v);
    assert RenderLine(f, v)[0] == '-';
  }

  lemma SectionHeading()
    ensures HeadingName("## " + SECTION) == SECTION
  {
    hide Strip, StripLeft, StripRight;
    var s := "## " + SECTION;
    assert Trimmed(s) && Trimmed(SECTION);
    StripOfTrimmed(s);
    assert s[0] == '#' && s[1..][0] == '#' && s[2..][0] == ' ';
    assert s[1..][1..] == s[2..];
    assert Hashes(s[2..]) == 0;
    assert Hashes(s[1..]) == 1;
    assert s[2..] == " " + SECTION + "";
    StripPadded(" ", SECTION, "");
  }

  lemma PrintedIsOneSection(d: Printed, p: Payload)
    requires Surroundings(d) && Complete(p)
    ensures OneSection(LayoutOf(d, p))
  {
    hide HeadingName, NoFlagLine, IsEntry, Ends, PlainValue, RenderLine, IsColumnHeading, Lower;
    SectionHeading();
    assert ("## " + SECTION)[0] == '#';
    var printed := RenderLines(p, PR_FIELDS);
    forall j | 0 <= j < |printed|
      ensures HeadingName(printed[j]) == ""
    {
      PrintedLineIsNoHeading(PR_FIELDS[j], p[PR_FIELDS[j]]);
    }
    var section := SectionOf(d, p);
    forall i | 0 <= i < |section|
      ensures HeadingName(section[i]) == ""
    {
      if |d.intro| <= i < |d.intro| + |printed| {
        assert section[i] == printed[i - |d.intro|];
      } else if i < |d.intro| {
        assert section[i] == d.intro[i];
      } else {
        assert section[i] == d.outro[i - |d.intro| - |printed|];
      }
    }
  }

  lemma RecheckKeepsComplete(p: Payload, v: string)
    requires Complete(p) && YesNo(v)
    ensures Complete(p[CheckedBeforeMerge := v])
  {
    hide PlainValue;
    YesNoIsFlagText(v);
    assert PR_FIELDS[8] == CheckedBeforeMerge;
  }

  lemma EditOfPrinted(d: Printed, p: Payload, v: string)
    requires Surroundings(d) && Complete(p) && IsFlagText(p[CheckedBeforeMerge]) && YesNo(v)
    ensures SetStatus(Description(d, p), v) == SomeLines(Description(d, p[CheckedBeforeMerge := v]))
  {
    hide SetStatus, SetFlag, OneSection, HeadingName, IsEntry, Ends, PlainValue, RenderLine, NoFlagLine, IsFlagText, Lower;
    PrintedIsOneSection(d, p);
    StatusOfOneSection(LayoutOf(d, p), v);
    SetFlagOfRendered(d.intro, p, d.outro, v);
  }

  lemma PayloadOfPrinted(d: Printed, p: Payload)
    requires Surroundings(d) && Complete(p)
    ensures PrPayload(Description(d, p)) == p
  {
    hide PrPayload, ParseSection, OneSection, Surroundings, SectionOf;
    PrintedIsOneSection(d, p);
    PayloadOfOneSection(LayoutOf(d, p));
    PrintedIsParsed(d, p);
  }

  lemma FlagTextOfOpened(forms: RefForms, p: Payload, issue: Payload)
    requires OpenPrProblems(forms, p, issue) == [] && Complete(p)
    ensures IsFlagText(p[CheckedBeforeMerge])
  {
    hide OpenPrProblems, StripLeft, StripRight, WhollyLocal, Integrated, MatchesIssue, Lower;
    OpenGateIsExact(forms, p, issue);
    var v := p[CheckedBeforeMerge];
    assert PR_FIELDS[8] == CheckedBeforeMerge;
    StripOfTrimmed(v);
    PlainIsRightStripped(v);
  }

  lemma PlainIsRightStripped(v: string)
    requires PlainValue(v)
    ensures StripRight(v) == v
  {
  }

  /** A payload that was allowed to open a pull request survives printing and
      parsing; recording the merge-time check in the printed description sets
      that field and no other; the result passes the merge gate with the check
      required; and recording "no" again gives the description without it. */
  lemma OpenedPrintedRecheckedMerged(forms: RefForms, d: Printed, p: Payload, issue: Payload)
    requires Surroundings(d) && Complete(p) && OpenPrProblems(forms, p, issue) == []
    ensures PrPayload(Description(d, p)) == p
    ensures SetStatus(Description(d, p), "yes").SomeLines?
    ensures var rechecked := SetStatus(Description(d, p), "yes").lines;
            && PrPayload(rechecked) == p[CheckedBeforeMerge := "yes"]
            && ReadStatus(rechecked) == Status("yes")
            && MergeGateProblems(forms, PrPayload(rechecked), issue, true) == []
            && SetStatus(rechecked, "no") == SomeLines(Description(d, p[CheckedBeforeMerge := "no"]))
  {
    hide SetStatus, ReadStatus, PrPayload, Surroundings, Description, OpenPrProblems, MergeGateProblems, IsFlagText,
         PlainPayload, OneSection, Value;
    var q := p[CheckedBeforeMerge := "yes"];
    FlagTextOfOpened(forms, p, issue);
    PayloadOfPrinted(d, p);
    EditOfPrinted(d, p, "yes");
    RecheckKeepsComplete(p, "yes");
    PayloadOfPrinted(d, q);
    StatusOfPrinted(d, q);
    OpenedThenRecheckedPassesGate(forms, p, issue);
    YesNoIsFlagText("yes");
    EditOfPrinted(d, q, "no");
    assert q[CheckedBeforeMerge := "no"] == p[CheckedBeforeMerge := "no"];
  }

  lemma StatusOfPrinted(d: Printed, p: Payload)
    requires Surroundings(d) && Complete(p) && YesNo(p[CheckedBeforeMerge])
    ensures ReadStatus(Description(d, p)) == Status(p[CheckedBeforeMerge])
  {
    hide SetStatus, ReadStatus, ParseSection, OneSection, Surroundings, SectionOf, PlainValue, SetFlag, Strip, Lower;
    PrintedIsOneSection(d, p);
    StatusOfOneSection(LayoutOf(d, p), "yes");
    PrintedIsParsed(d, p);
    YesNoReadsAsItself(p[CheckedBeforeMerge]);
  }

  lemma YesNoReadsAsItself(v: string)
    requires YesNo(v)
    ensures Lower(Strip(v)) == v
  {
    hide Strip, StripLeft, StripRight;
    assert Trimmed(v);
    StripOfTrimmed(v);
    assert Lower("yes") == "yes" && Lower("no") == "no";
  }
}
