/** The integration section inside a pull request description: how the parser
    and the merge guardian find it, and the way from the printer over the editor
    and the parser to the merge gate. */
module IntegrationSection {
  import opened Text
  import opened IntegrationContract
  import opened IntegrationText
  import opened IntegrationEdit
  import opened IntegrationRestore

  const SECTION := "integration_check"

  function Hashes(s: string): (n: nat)
    ensures n <= |s|
  {
    if s != "" && s[0] == '#' then 1 + Hashes(s[1..]) else 0
  }

  /** The text of a heading of the second to sixth level, or the empty text. */
  function HeadingName(line: Line): string {
    var s := Strip(line);
    var n := Hashes(s);
    if 2 <= n <= 6 && n < |s| && IsSpace(s[n]) then Strip(s[n..]) else ""
  }

  // ----------------------------------------------------- what the parser reads

  /** The lines under every heading with the section's name. */
  function Collected(body: Lines, inside: bool): Lines {
    if body == [] then []
    else
      var name := HeadingName(body[0]);
      if name != "" then Collected(body[1..], name == SECTION)
      else (if inside then [StripRight(body[0])] else []) + Collected(body[1..], inside)
  }

  function DropBlankEnd(lines: Lines): Lines {
    if lines != [] && Strip(lines[|lines| - 1]) == "" then DropBlankEnd(lines[..|lines| - 1]) else lines
  }

  /** The lines of a text without the white space around it. */
  function TrimLines(lines: Lines): Lines {
    if lines == [] then []
    else if Strip(lines[0]) == "" then TrimLines(lines[1..])
    else DropBlankEnd([StripLeft(lines[0])] + lines[1..])
  }

  /** The integration fields of a pull request description. */
  function PrPayload(body: Lines): Payload {
    ParseSection(TrimLines(Collected(body, false)))
  }

  // --------------------------------------------------- what the guardian edits

  predicate IsColumnHeading(line: Line) {
    line != "" && line[0] == '#' && HeadingName(line) != ""
  }

  function FindHeading(body: Lines): (i: nat)
    ensures i <= |body|
  {
    if body == [] || (IsColumnHeading(body[0]) && Lower(HeadingName(body[0])) == SECTION) then 0
    else 1 + FindHeading(body[1..])
  }

  function NextHeading(body: Lines): (i: nat)
    ensures i <= |body|
  {
    if body == [] || IsColumnHeading(body[0]) then 0 else 1 + NextHeading(body[1..])
  }

  datatype Span = NoSpan | Span(start: nat, end: nat)

  function SectionSpan(body: Lines): (span: Span)
    ensures span.Span? ==> span.start <= span.end <= |body|
  {
    var h := FindHeading(body);
    if h == |body| then NoSpan else Span(h + 1, h + 1 + NextHeading(body[h + 1..]))
  }

  function SetStatus(body: Lines, v: string): LinesOption {
    match SectionSpan(body)
    case NoSpan => NoLines
    case Span(start, end) =>
      match SetFlag(body[start..end], v)
      case NoLines => NoLines
      case SomeLines(section) => SomeLines(body[..start] + section + body[end..])
  }

  datatype StatusOption = NoStatus | Status(value: string)

  function ReadStatus(body: Lines): StatusOption {
    match SectionSpan(body)
    case NoSpan => NoStatus
    case Span(start, end) =>
      var v := Value(ParseSection(body[start..end]), CheckedBeforeMerge);
      if YesNo(v) then Status(v) else NoStatus
  }

  // ------------------------------------------------------------- one section

  /** A description with a single integration section. */
  datatype Layout = Layout(pre: Lines, heading: Line, section: Lines, post: Lines)

  function BodyOf(l: Layout): Lines {
    l.pre + [l.heading] + l.section + l.post
  }

  predicate OneSection(l: Layout) {
    && (forall i :: 0 <= i < |l.pre| ==> Lower(HeadingName(l.pre[i])) != SECTION)
    && l.heading != "" && l.heading[0] == '#' && HeadingName(l.heading) == SECTION
    && (forall i :: 0 <= i < |l.section| ==> HeadingName(l.section[i]) == "")
    && (l.post != [] ==> IsColumnHeading(l.post[0]))
    && (forall i :: 0 <= i < |l.post| ==> Lower(HeadingName(l.post[i])) != SECTION)
  }

  lemma SectionIsItsOwnLower()
    ensures Lower(SECTION) == SECTION && SECTION != ""
  {
  }

  lemma {:induction false} FindHeadingBehind(pre: Lines, heading: Line, rest: Lines)
    requires forall i :: 0 <= i < |pre| ==> Lower(HeadingName(pre[i])) != SECTION
    requires heading != "" && heading[0] == '#' && HeadingName(heading) == SECTION
    ensures FindHeading(pre + [heading] + rest) == |pre|
  {
    hide HeadingName;
    SectionIsItsOwnLower();
    var body := pre + [heading] + rest;
    if pre != [] {
      assert body[1..] == pre[1..] + [heading] + rest;
      FindHeadingBehind(pre[1..], heading, rest);
    }
  }

  lemma {:induction false} NextHeadingBehind(section: Lines, post: Lines)
    requires forall i :: 0 <= i < |section| ==> HeadingName(section[i]) == ""
    requires post != [] ==> IsColumnHeading(post[0])
    ensures NextHeading(section + post) == |section|
  {
    hide HeadingName;
    if section == [] {
      assert section + post == post;
    } else {
      assert (section + post)[1..] == section[1..] + post;
      NextHeadingBehind(section[1..], post);
    }
  }

  lemma SpanOfOneSection(l: Layout)
    requires OneSection(l)
    ensures var body, start := BodyOf(l), |l.pre| + 1;
            && SectionSpan(body) == Span(start, start + |l.section|)
            && body[start..start + |l.section|] == l.section
            && body[..start] == l.pre + [l.heading] && body[start + |l.section|..] == l.post
  {
    hide HeadingName;
    var body := BodyOf(l);
    assert body == l.pre + [l.heading] + (l.section + l.post);
    FindHeadingBehind(l.pre, l.heading, l.section + l.post);
    assert body[|l.pre| + 1..] == l.section + l.post;
    NextHeadingBehind(l.section, l.post);
  }

  lemma {:induction false} NothingCollected(lines: Lines)
    requires forall i :: 0 <= i < |lines| ==> Lower(HeadingName(lines[i])) != SECTION
    ensures Collected(lines, false) == []
  {
    hide HeadingName;
    SectionIsItsOwnLower();
    if lines != [] {
      NothingCollected(lines[1..]);
    }
  }

  function RightStripped(lines: Lines): Lines {
    seq(|lines|, i requires 0 <= i < |lines| => StripRight(lines[i]))
  }

  lemma {:induction false} CollectedInside(section: Lines, post: Lines)
    requires forall i :: 0 <= i < |section| ==> HeadingName(section[i]) == ""
    requires post != [] ==> IsColumnHeading(post[0])
    requires forall i :: 0 <= i < |post| ==> Lower(HeadingName(post[i])) != SECTION
    ensures Collected(section + post, true) == RightStripped(section)
  {
    hide HeadingName, StripRight;
    SectionIsItsOwnLower();
    if section == [] {
      assert section + post == post;
      if post != [] {
        NothingCollected(post[1..]);
      }
    } else {
      assert (section + post)[1..] == section[1..] + post;
      CollectedInside(section[1..], post);
      assert RightStripped(section) == [StripRight(section[0])] + RightStripped(section[1..]);
    }
  }

  lemma {:induction false} CollectedBehind(pre: Lines, heading: Line, rest: Lines)
    requires forall i :: 0 <= i < |pre| ==> Lower(HeadingName(pre[i])) != SECTION
    requires HeadingName(heading) == SECTION
    ensures Collected(pre + [heading] + rest, false) == Collected(rest, true)
  {
    hide HeadingName;
    SectionIsItsOwnLower();
    var body := pre + [heading] + rest;
    if pre == [] {
      assert body[1..] == rest;
    } else {
      assert body[1..] == pre[1..] + [heading] + rest;
      CollectedBehind(pre[1..], heading, rest);
    }
  }

  // ------------------------------------------------- margins do not matter

  lemma {:induction false} StripLeftOfJoin(r: string, post: string)
    requires StripLeft(r) != ""
    ensures StripLeft(r + post) == StripLeft(r) + post
  {
    assert (r + post)[0] == r[0];
    if IsSpace(r[0]) {
      assert (r + post)[1..] == r[1..] + post;
      StripLeftOfJoin(r[1..], post);
    }
  }

  lemma StripOfJoin(r: string, post: string)
    requires Blank(post)
    ensures Strip(r + post) == Strip(r)
  {
    hide StripRight, StripLeft;
    if StripLeft(r) == "" {
      assert Blank(r);
      BlankStripsToNothing(r);
      BlankStripsToNothing(r + post);
    } else {
      StripLeftOfJoin(r, post);
      StripRightPadded(StripLeft(r), post);
    }
  }

  lemma StripOfRightStripped(line: Line)
    ensures Strip(StripRight(line)) == Strip(line)
    ensures Strip(line) != "" ==> line != "" && StripRight(line) != "" && StripRight(line)[0] == line[0]
  {
    hide StripRight, Strip;
    var r := StripRight(line);
    StripOfJoin(r, line[|r|..]);
    assert line == r + line[|r|..];
    BlankStripsToNothing("");
  }

  lemma BlankStripsToNothing(s: string)
    requires Blank(s)
    ensures Strip(s) == ""
  {
    StripPadded(s, "", "");
    assert s + "" + "" == s;
  }

  lemma RightStrippedLineIsAsGood(state: Parser, line: Line)
    ensures ParseLine(state, StripRight(line)) == ParseLine(state, line)
  {
    hide Strip, ParseEntry, Continued, StripRight;
    StripOfRightStripped(line);
  }

  lemma {:induction false} RightStrippedIsAsGood(state: Parser, lines: Lines)
    ensures ParseFrom(state, RightStripped(lines)) == ParseFrom(state, lines)
  {
    hide ParseLine, StripRight;
    if lines != [] {
      var n := |lines| - 1;
      assert RightStripped(lines)[..n] == RightStripped(lines[..n]);
      RightStrippedIsAsGood(state, lines[..n]);
      RightStrippedLineIsAsGood(ParseFrom(state, lines[..n]), lines[n]);
    }
  }

  lemma BlankLineIsSkipped(state: Parser, line: Line)
    requires Strip(line) == ""
    ensures ParseLine(state, line) == state
  {
    hide Strip;
  }

  lemma {:induction false} BlankEndIsSkipped(state: Parser, lines: Lines)
    ensures ParseFrom(state, DropBlankEnd(lines)) == ParseFrom(state, lines)
  {
    hide ParseLine, Strip;
    if lines != [] && Strip(lines[|lines| - 1]) == "" {
      BlankEndIsSkipped(state, lines[..|lines| - 1]);
      BlankLineIsSkipped(ParseFrom(state, lines[..|lines| - 1]), lines[|lines| - 1]);
    }
  }

  lemma FirstLineMayBeIndented(line: Line)
    requires Strip(line) != ""
    ensures ParseLine(START, StripLeft(line)) == ParseLine(START, line)
  {
    hide Strip, StripLeft, ParseEntry;
    StripOfLeftStripped(line);
  }

  lemma StripOfLeftStripped(line: Line)
    ensures Strip(StripLeft(line)) == Strip(line)
  {
  }

  lemma {:induction false} MarginsDoNotMatter(lines: Lines)
    ensures ParseFrom(START, TrimLines(lines)) == ParseFrom(START, lines)
  {
    hide ParseLine, Strip, StripLeft, DropBlankEnd;
    if lines != [] {
      assert lines == [lines[0]] + lines[1..];
      ParseConcat(START, [lines[0]], lines[1..]);
      ParseOfOne(START, lines[0]);
      if Strip(lines[0]) == "" {
        BlankLineIsSkipped(START, lines[0]);
        MarginsDoNotMatter(lines[1..]);
      } else {
        FirstLineMayBeIndented(lines[0]);
        ParseOfOne(START, StripLeft(lines[0]));
        ParseConcat(START, [StripLeft(lines[0])], lines[1..]);
        BlankEndIsSkipped(START, [StripLeft(lines[0])] + lines[1..]);
      }
    }
  }

  /** With one section, the parser reads what the guardian edits. */
  lemma PayloadOfOneSection(l: Layout)
    requires OneSection(l)
    ensures PrPayload(BodyOf(l)) == ParseSection(l.section)
  {
    hide HeadingName, ParseLine, TrimLines, Collected;
    assert BodyOf(l) == l.pre + [l.heading] + (l.section + l.post);
    CollectedBehind(l.pre, l.heading, l.section + l.post);
    CollectedInside(l.section, l.post);
    MarginsDoNotMatter(RightStripped(l.section));
    RightStrippedIsAsGood(START, l.section);
  }

  lemma StatusOfOneSection(l: Layout, v: string)
    requires OneSection(l)
    ensures SetStatus(BodyOf(l), v) ==
            (match SetFlag(l.section, v)
             case NoLines => NoLines
             case SomeLines(section) => SomeLines(BodyOf(l.(section := section))))
    ensures ReadStatus(BodyOf(l)) ==
            (var s := Value(ParseSection(l.section), CheckedBeforeMerge);
             if YesNo(s) then Status(s) else NoStatus)
  {
    hide SectionSpan, OneSection, SetFlag, Value, ParseSection;
    SpanOfOneSection(l);
  }

  // ----------------------------------------------------- edits of any description

  function SpannedLines(body: Lines): Lines {
    match SectionSpan(body)
    case NoSpan => []
    case Span(start, end) => body[start..end]
  }

  lemma FlagLineIsNoHeading(line: Line, w: string)
    requires FlagValue(line) != "" && YesNo(w)
    ensures HeadingName(line) == "" && HeadingName(SetLine(line, w)) == ""
  {
    hide WellFormed, Compose, FlagValue, SetLine, Strip, Bullet, StripRight;
    var p := FlagLineParts(line);
    SetLineKeepsParts(line, p, w);
    StrippedFlagLine(p);
    StrippedFlagLine(p.(value := w));
    BulletStartsWithDash(p, StripRight(p.value));
    BulletStartsWithDash(p.(value := w), StripRight(w));
  }

  lemma BulletStartsWithDash(p: FlagParts, x: string)
    ensures Bullet(p) + x != "" && (Bullet(p) + x)[0] == '-'
  {
  }

  lemma {:induction false} FindHeadingAfterEdit(body: Lines, k: nat, line: Line)
    requires k < |body| && HeadingName(body[k]) == "" && HeadingName(line) == ""
    ensures FindHeading(body[k := line]) == FindHeading(body)
  {
    hide HeadingName, Lower;
    var edited := body[k := line];
    if k == 0 {
      assert edited[1..] == body[1..];
    } else {
      assert edited[1..] == body[1..][k - 1 := line];
      FindHeadingAfterEdit(body[1..], k - 1, line);
    }
  }

  lemma {:induction false} NextHeadingAfterEdit(body: Lines, k: nat, line: Line)
    requires k < |body| && HeadingName(body[k]) == "" && HeadingName(line) == ""
    ensures NextHeading(body[k := line]) == NextHeading(body)
  {
    hide HeadingName;
    var edited := body[k := line];
    if k == 0 {
      assert edited[1..] == body[1..];
    } else {
      assert edited[1..] == body[1..][k - 1 := line];
      NextHeadingAfterEdit(body[1..], k - 1, line);
    }
  }

  /** An edit of the section replaces one line and moves nothing. */
  lemma EditedBody(body: Lines, w: string)
    requires SetStatus(body, w).SomeLines? && YesNo(w)
    ensures var span, edited := SectionSpan(body), SetStatus(body, w).lines;
            && span.Span? && |edited| == |body| && SectionSpan(edited) == span
            && SetFlag(SpannedLines(body), w) == SomeLines(SpannedLines(edited))
            && edited[..span.start] == body[..span.start] && edited[span.end..] == body[span.end..]
  {
    hide HeadingName, FlagIndex, FlagValue, SetLine, SectionSpan, FindHeading, NextHeading;
    var span, edited := SectionSpan(body), SetStatus(body, w).lines;
    var section := body[span.start..span.end];
    FlagIndexIsFirst(section);
    var i := FlagIndex(section);
    FlagLineIsNoHeading(section[i], w);
    var k := span.start + i;
    assert edited == body[k := SetLine(section[i], w)];
    SpanAfterEdit(body, k, SetLine(section[i], w));
    assert edited[span.start..span.end] == section[i := SetLine(section[i], w)];
  }

  lemma SpanAfterEdit(body: Lines, k: nat, line: Line)
    requires k < |body| && HeadingName(body[k]) == "" && HeadingName(line) == ""
    requires SectionSpan(body).Span? && SectionSpan(body).start <= k
    ensures SectionSpan(body[k := line]) == SectionSpan(body)
  {
    hide HeadingName, FindHeading, NextHeading;
    var h := FindHeading(body);
    FindHeadingAfterEdit(body, k, line);
    NextHeadingAfterEdit(body[h + 1..], k - h - 1, line);
    assert body[k := line][h + 1..] == body[h + 1..][k - h - 1 := line];
  }

  lemma SetStatusTwice(body: Lines, w: string, v: string)
    requires SetStatus(body, w).SomeLines? && YesNo(w) && YesNo(v)
    ensures SetStatus(SetStatus(body, w).lines, v) == SetStatus(body, v)
  {
    hide SectionSpan, SetFlag;
    EditedBody(body, w);
    SetFlagTwice(SpannedLines(body), w, v);
  }

  /** Undoing a recorded recheck writes the value that was read before it. */
  predicate Undone(before: Lines, after: Lines) {
    || before == after
    || (ReadStatus(before).Status? && SetStatus(before, ReadStatus(before).value) == SomeLines(after))
  }

  /** Recording the recheck in a description and restoring the value read before
      undoes it. */
  lemma RestoreUndoes(body: Lines)
    requires ReadStatus(body).Status? && SetStatus(body, "yes").SomeLines?
    ensures var restored := SetStatus(SetStatus(body, "yes").lines, ReadStatus(body).value);
            restored.SomeLines? && Undone(body, restored.lines)
  {
    hide SectionSpan, SetFlag, ParseSection, Value, SetStatus;
    SetStatusTwice(body, "yes", ReadStatus(body).value);
    SetStatusIsPossible(body, "yes", ReadStatus(body).value);
  }

  lemma SetStatusIsPossible(body: Lines, w: string, v: string)
    requires SetStatus(body, w).SomeLines?
    ensures SetStatus(body, v).SomeLines?
  {
    hide SectionSpan, FlagIndex;
  }

  /** Restoring a value in a description that others have edited meanwhile
      changes the other fields exactly when the line it writes is text of another
      field; the rest of the description never changes. */
  lemma RestoreAfterOutsideEdits(body: Lines, v: string)
    requires SetStatus(body, v).SomeLines? && YesNo(v)
    ensures var span, after := SectionSpan(body), SetStatus(body, v).lines;
            && span.Span? && |after| == |body| && SectionSpan(after) == span
            && after[..span.start] == body[..span.start] && after[span.end..] == body[span.end..]
            && SetFlag(SpannedLines(body), v).SomeLines?
            && (OthersKept(ParseSection(SpannedLines(body)), ParseSection(SpannedLines(after)))
                <==> !HitsAnother(SpannedLines(body), v))
  {
    hide SectionSpan, SetFlag, ParseSection, SetStatus, HitsAnother, OthersKept;
    EditedBody(body, v);
    EditKeepsOtherFieldsExactly(SpannedLines(body), v);
  }

  /** Undoing keeps the status and everything outside the section, and the other
      fields exactly when the line it writes is not text of another field. */
  lemma UndoneKeepsStatus(before: Lines, after: Lines)
    requires Undone(before, after)
    ensures ReadStatus(after) == ReadStatus(before) && |after| == |before|
    ensures var span := SectionSpan(before);
            && SectionSpan(after) == span
            && (span.Span? ==> after[..span.start] == before[..span.start] && after[span.end..] == before[span.end..])
    ensures before != after ==> SetFlag(SpannedLines(before), ReadStatus(before).value).SomeLines?
    ensures OthersKept(ParseSection(SpannedLines(before)), ParseSection(SpannedLines(after))) <==>
            before == after || !HitsAnother(SpannedLines(before), ReadStatus(before).value)
  {
    hide SectionSpan, SetFlag, ParseSection, Value, SetStatus, HitsAnother, OthersKept;
    if before == after {
      NothingIsKept(ParseSection(SpannedLines(before)));
    } else {
      var v := ReadStatus(before).value;
      StatusIsYesOrNo(before);
      EditedBody(before, v);
      RecordingTheReadValue(SpannedLines(before), v);
      RestoreAfterOutsideEdits(before, v);
    }
  }

  lemma NothingIsKept(p: Payload)
    ensures OthersKept(p, p)
  {
  }

  lemma StatusIsYesOrNo(body: Lines)
    requires ReadStatus(body).Status?
    ensures YesNo(ReadStatus(body).value)
  {
    hide SectionSpan, ParseSection, Value;
  }
}
