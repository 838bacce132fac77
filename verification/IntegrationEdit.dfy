/** Recording the merge-time recheck in the lines of an integration section: one
    value is edited in place, and what the edit can change for the parser. */
module IntegrationEdit {
  import opened Text
  import opened IntegrationContract
  import opened IntegrationText

  // ------------------------------------------------------------- one flag line

  /** The text behind the recheck's field name, spelled in any case. */
  function BehindName(s: string): string {
    var n := |FieldName(CheckedBeforeMerge)|;
    if n <= |s| && Lower(s[..n]) == FieldName(CheckedBeforeMerge) then s[n..] else ""
  }

  /** Skips a hint in parentheses, if one starts here. */
  function AfterHint(s: string): string {
    if s != "" && s[0] == WIDE_OPEN && WIDE_CLOSE in s[1..] then Behind(s[1..], WIDE_CLOSE)
    else if s != "" && s[0] == '(' && ')' in s[1..] then Behind(s[1..], ')')
    else s
  }

  predicate StartsWithColon(s: string) {
    s != "" && (s[0] == ':' || s[0] == WIDE_COLON)
  }

  /** A line that names the recheck as a list entry, from its colon on; the empty
      text when the line has another form. */
  function FromColon(line: Line): string {
    var bullet := StripLeft(line);
    if bullet == "" || bullet[0] != '-' then ""
    else
      var rest := StripLeft(AfterHint(BehindName(StripLeft(bullet[1..]))));
      if StartsWithColon(rest) then rest else ""
  }

  predicate IsFlagText(s: string) {
    Lower(StripRight(s)) == "yes" || Lower(StripRight(s)) == "no"
  }

  /** The value part of a line that records the recheck: a dash, the field name,
      an optional hint, a colon, and yes or no.  The empty text when the line
      has another form. */
  function FlagValue(line: Line): string {
    var rest := FromColon(line);
    if rest != "" && IsFlagText(StripLeft(rest[1..])) then StripLeft(rest[1..]) else ""
  }

  // ------------------------------------------------------ how it is put together

  predicate Blank(s: string) {
    forall i :: 0 <= i < |s| ==> IsSpace(s[i])
  }

  ghost predicate Enclosed(h: string, open: char, close: char) {
    exists inner :: close !in inner && h == [open] + inner + [close]
  }

  ghost predicate IsHint(h: string) {
    h == "" || Enclosed(h, WIDE_OPEN, WIDE_CLOSE) || Enclosed(h, '(', ')')
  }

  datatype FlagParts = FlagParts(margin: string, gap: string, name: string, hint: string, blank: string,
                                 colon: char, pad: string, value: string)

  function Compose(p: FlagParts): Line {
    p.margin + ("-" + (p.gap + (p.name + Tail(p))))
  }

  function Tail(p: FlagParts): string {
    p.hint + (p.blank + ([p.colon] + (p.pad + p.value)))
  }

  ghost predicate WellFormed(p: FlagParts) {
    && Blank(p.margin) && Blank(p.gap) && Blank(p.blank) && Blank(p.pad)
    && Lower(p.name) == FieldName(CheckedBeforeMerge)
    && IsHint(p.hint)
    && (p.colon == ':' || p.colon == WIDE_COLON)
    && p.value != "" && !IsSpace(p.value[0]) && IsFlagText(p.value)
  }

  function Margin(s: string): (r: string)
    ensures Blank(r) && s == r + StripLeft(s)
  {
    s[..|s| - |StripLeft(s)|]
  }

  lemma StripLeftBehindBlank(b: string, s: string)
    requires Blank(b) && s != "" && !IsSpace(s[0])
    ensures StripLeft(b + s) == s
  {
    StripLeftPadded(b, s);
  }

  lemma EnclosedIsCutOff(s: string, open: char, close: char) returns (h: string)
    requires s != "" && s[0] == open && close in s[1..]
    ensures Enclosed(h, open, close) && s == h + Behind(s[1..], close)
  {
    var inner := UpTo(s[1..], close);
    UpToFinds(s[1..], close);
    h := [open] + inner + [close];
    assert s == [s[0]] + s[1..];
    assert s == h + Behind(s[1..], close);
  }

  lemma HintIsCutOff(s: string) returns (h: string)
    ensures IsHint(h) && s == h + AfterHint(s)
  {
    hide Enclosed, Behind;
    if s != "" && s[0] == WIDE_OPEN && WIDE_CLOSE in s[1..] {
      h := EnclosedIsCutOff(s, WIDE_OPEN, WIDE_CLOSE);
    } else if s != "" && s[0] == '(' && ')' in s[1..] {
      h := EnclosedIsCutOff(s, '(', ')');
    } else {
      h := "";
    }
  }

  lemma EnclosedIsSkipped(h: string, open: char, close: char, s: string)
    requires Enclosed(h, open, close)
    ensures h + s != "" && (h + s)[0] == open && close in (h + s)[1..] && Behind((h + s)[1..], close) == s
  {
    var inner :| close !in inner && h == [open] + inner + [close];
    UpToStopsAt(inner, close, s);
    assert (h + s)[1..] == inner + [close] + s;
    assert (inner + [close] + s)[|inner|] == close;
  }

  lemma HintIsSkipped(h: string, s: string)
    requires IsHint(h) && s != "" && s[0] != WIDE_OPEN && s[0] != '('
    ensures AfterHint(h + s) == s
  {
    hide Enclosed, Behind;
    if h == "" {
      assert h + s == s;
    } else if Enclosed(h, WIDE_OPEN, WIDE_CLOSE) {
      EnclosedIsSkipped(h, WIDE_OPEN, WIDE_CLOSE, s);
    } else {
      EnclosedIsSkipped(h, '(', ')', s);
    }
  }

  function TextBehindName(line: Line): string {
    var bullet := StripLeft(line);
    if bullet == "" then "" else BehindName(StripLeft(bullet[1..]))
  }

  lemma FlagLineHead(line: Line) returns (margin: string, gap: string, name: string)
    requires FromColon(line) != ""
    ensures Blank(margin) && Blank(gap) && Lower(name) == FieldName(CheckedBeforeMerge)
    ensures line == margin + ("-" + (gap + (name + TextBehindName(line))))
    ensures StartsWithColon(StripLeft(AfterHint(TextBehindName(line))))
         && FromColon(line) == StripLeft(AfterHint(TextBehindName(line)))
  {
    hide AfterHint, BehindName, StripLeft, Lower, FieldName, Blank;
    EmptyHint();
    var bullet := StripLeft(line);
    var named := StripLeft(bullet[1..]);
    NameIsCutOff(named);
    margin, gap, name := Margin(line), Margin(bullet[1..]), named[..|named| - |BehindName(named)|];
    assert bullet == "-" + bullet[1..];
  }

  lemma FlagLineTail(behind: string) returns (hint: string, blank: string, colon: char, pad: string)
    requires StartsWithColon(StripLeft(AfterHint(behind)))
    ensures IsHint(hint) && Blank(blank) && Blank(pad) && (colon == ':' || colon == WIDE_COLON)
    ensures var value := StripLeft(StripLeft(AfterHint(behind))[1..]);
            behind == hint + (blank + ([colon] + (pad + value)))
  {
    hide AfterHint, StripLeft, IsHint, Blank;
    hint := HintIsCutOff(behind);
    var rest := StripLeft(AfterHint(behind));
    blank, colon, pad := Margin(AfterHint(behind)), rest[0], Margin(rest[1..]);
    assert rest == [colon] + rest[1..];
  }

  /** Every flag line is put together from such parts ... */
  lemma FlagLineParts(line: Line) returns (p: FlagParts)
    requires FlagValue(line) != ""
    ensures WellFormed(p) && Compose(p) == line && p.value == FlagValue(line)
  {
    hide AfterHint, IsFlagText, StripLeft, IsHint, Lower, FieldName, Blank, FromColon, TextBehindName;
    var margin, gap, name := FlagLineHead(line);
    var hint, blank, colon, pad := FlagLineTail(TextBehindName(line));
    p := FlagParts(margin, gap, name, hint, blank, colon, pad, FlagValue(line));
  }

  lemma NameIsCutOff(s: string)
    requires BehindName(s) != ""
    ensures |BehindName(s)| <= |s| && s == s[..|s| - |BehindName(s)|] + BehindName(s)
    ensures Lower(s[..|s| - |BehindName(s)|]) == FieldName(CheckedBeforeMerge)
  {
    hide FieldName;
  }

  lemma EmptyHint()
    ensures StripLeft(AfterHint("")) == "" && !StartsWithColon(StripLeft(AfterHint("")))
  {
  }

  lemma NameIsRecognised(name: string, tail: string)
    requires Lower(name) == FieldName(CheckedBeforeMerge)
    ensures BehindName(name + tail) == tail && name != "" && !IsSpace(name[0])
  {
    hide FieldName, PlainName, NameText;
    FieldNamesArePlain(CheckedBeforeMerge);
    NameStartsDark(CheckedBeforeMerge);
    assert (name + tail)[..|name|] == name;
    assert Lower(name)[0] == LowerChar(name[0]);
  }

  lemma NameStartsDark(f: Field)
    ensures FieldName(f) != "" && !IsSpace(FieldName(f)[0])
  {
    hide FieldName, NameText;
    FieldNamesArePlain(f);
  }

  /** ... and whatever is put together from them is recognised. */
  lemma ComposedIsFlagLine(p: FlagParts)
    requires WellFormed(p)
    ensures FlagValue(Compose(p)) == p.value
  {
    hide AfterHint, BehindName, IsFlagText, StripLeft, IsHint, Lower;
    var rest := [p.colon] + (p.pad + p.value);
    var named := p.name + Tail(p);
    var bullet := "-" + (p.gap + named);
    StripLeftBehindBlank(p.margin, bullet);
    assert bullet[1..] == p.gap + named;
    NameIsRecognised(p.name, Tail(p));
    StripLeftBehindBlank(p.gap, named);
    BlankIsNoHint(p.blank, rest);
    HintIsSkipped(p.hint, p.blank + rest);
    StripLeftBehindBlank(p.blank, rest);
    assert rest[1..] == p.pad + p.value;
    StripLeftBehindBlank(p.pad, p.value);
  }

  lemma BlankIsNoHint(b: string, s: string)
    requires Blank(b) && StartsWithColon(s)
    ensures (b + s)[0] != WIDE_OPEN && (b + s)[0] != '('
  {
  }

  /** The line with another value recorded in it. */
  function SetLine(line: Line, v: string): Line {
    if |FlagValue(line)| <= |line| then line[..|line| - |FlagValue(line)|] + v else line
  }

  /** The first line that records the recheck, or the number of lines. */
  function FlagIndex(lines: Lines): (i: nat)
    ensures i <= |lines|
  {
    if lines == [] || FlagValue(lines[0]) != "" then 0 else 1 + FlagIndex(lines[1..])
  }

  lemma {:induction false} FlagIndexIsFirst(lines: Lines)
    ensures var i := FlagIndex(lines);
            && (i < |lines| ==> FlagValue(lines[i]) != "")
            && forall j :: 0 <= j < i ==> FlagValue(lines[j]) == ""
  {
    hide FlagValue;
    if lines != [] {
      FlagIndexIsFirst(lines[1..]);
    }
  }

  lemma {:induction false} FlagIndexIs(lines: Lines, i: nat)
    requires i <= |lines|
    requires i < |lines| ==> FlagValue(lines[i]) != ""
    requires forall j :: 0 <= j < i ==> FlagValue(lines[j]) == ""
    ensures FlagIndex(lines) == i
  {
    hide FlagValue;
    if i > 0 {
      FlagIndexIs(lines[1..], i - 1);
    }
  }

  datatype LinesOption = NoLines | SomeLines(lines: Lines)

  function SetFlag(lines: Lines, v: string): LinesOption {
    var i := FlagIndex(lines);
    if i == |lines| then NoLines else SomeLines(lines[i := SetLine(lines[i], v)])
  }

  predicate YesNo(v: string) {
    v == "yes" || v == "no"
  }

  lemma YesNoIsFlagText(v: string)
    requires YesNo(v)
    ensures PlainValue(v) && IsFlagText(v)
  {
    assert Lower("yes") == "yes" && Lower("no") == "no";
  }

  lemma SetLineKeepsParts(line: Line, p: FlagParts, w: string)
    requires WellFormed(p) && Compose(p) == line && FlagValue(line) == p.value && YesNo(w)
    ensures WellFormed(p.(value := w)) && SetLine(line, w) == Compose(p.(value := w))
  {
    hide FlagValue, IsFlagText, IsHint, Lower, Blank, FieldName;
    YesNoIsFlagText(w);
    var head := p.margin + ("-" + (p.gap + (p.name + (p.hint + (p.blank + ([p.colon] + p.pad))))));
    assert line == head + p.value;
    assert Compose(p.(value := w)) == head + w;
    assert line[..|line| - |p.value|] == head;
  }

  /** A recorded value is read back, and recording again replaces it. */
  lemma SetLineIsReadBack(line: Line, w: string, v: string)
    requires FlagValue(line) != "" && YesNo(w) && YesNo(v)
    ensures FlagValue(SetLine(line, w)) == w && SetLine(SetLine(line, w), v) == SetLine(line, v)
  {
    hide WellFormed, Compose, SetLine, FlagValue;
    var p := FlagLineParts(line);
    SetLineKeepsParts(line, p, w);
    SetLineKeepsParts(line, p, v);
    ComposedIsFlagLine(p.(value := w));
    SetLineKeepsParts(SetLine(line, w), p.(value := w), v);
  }

  lemma SetFlagTwice(lines: Lines, w: string, v: string)
    requires SetFlag(lines, w).SomeLines? && YesNo(w) && YesNo(v)
    ensures SetFlag(SetFlag(lines, w).lines, v) == SetFlag(lines, v)
  {
    hide SetLine, FlagValue, FlagIndex;
    var i := FlagIndex(lines);
    FlagIndexIsFirst(lines);
    SetLineIsReadBack(lines[i], w, v);
    var out := SetFlag(lines, w).lines;
    FlagIndexIs(out, i);
    assert out[i := SetLine(out[i], v)] == lines[i := SetLine(lines[i], v)];
  }

  // -------------------------------------------------------- the printed section

  lemma RecheckNameIsLongest(f: Field)
    requires f != CheckedBeforeMerge
    ensures |FieldName(f)| < |FieldName(CheckedBeforeMerge)|
  {
  }

  lemma OtherNameIsNotTheFlag(f: Field, v: string)
    requires f != CheckedBeforeMerge
    ensures BehindName(FieldName(f) + (": " + v)) == ""
  {
    hide FieldName, PlainName, NameText;
    RecheckNameIsLongest(f);
    FieldNamesArePlain(CheckedBeforeMerge);
    NameHasNoColon(FieldName(CheckedBeforeMerge), |FieldName(f)|);
    var s := FieldName(f) + (": " + v);
    var n := |FieldName(CheckedBeforeMerge)|;
    if n <= |s| {
      assert s[..n][|FieldName(f)|] == ':';
      assert Lower(s[..n])[|FieldName(f)|] == ':';
    }
  }

  lemma NameHasNoColon(name: string, k: nat)
    requires NameText(name) && k < |name|
    ensures name[k] != ':'
  {
  }

  lemma OtherLineIsNoFlagLine(f: Field, v: string)
    requires f != CheckedBeforeMerge
    ensures FlagValue(RenderLine(f, v)) == ""
  {
    hide FieldName, StripLeft, BehindName, AfterHint, StartsWithColon;
    var line := RenderLine(f, v);
    var named := FieldName(f) + (": " + v);
    NameStartsDark(f);
    assert line == "" + line && line == "- " + named && line[1..] == " " + named;
    StripLeftBehindBlank("", line);
    StripLeftBehindBlank(" ", named);
    OtherNameIsNotTheFlag(f, v);
    EmptyHint();
  }

  lemma LowerOfName(f: Field)
    ensures Lower(FieldName(f)) == FieldName(f)
  {
    hide FieldName, PlainName, NameText;
    FieldNamesArePlain(f);
    LowerOfNameText(FieldName(f));
  }

  lemma LowerOfNameText(name: string)
    requires NameText(name)
    ensures Lower(name) == name
  {
  }

  /** Of the printed fields only the recheck is recognised, with its value. */
  lemma FlagValueOfRendered(f: Field, v: string)
    requires f == CheckedBeforeMerge ==> PlainValue(v) && IsFlagText(v)
    ensures FlagValue(RenderLine(f, v)) == if f == CheckedBeforeMerge then v else ""
  {
    hide FlagValue, FieldName, IsFlagText, Lower;
    if f == CheckedBeforeMerge {
      LowerOfName(f);
      var p := FlagParts("", " ", FieldName(f), "", "", ':', " ", v);
      assert RenderLine(f, v) == Compose(p);
      ComposedIsFlagLine(p);
    } else {
      OtherLineIsNoFlagLine(f, v);
    }
  }

  lemma SetLineOfRendered(v: string, w: string)
    requires PlainValue(v) && IsFlagText(v)
    ensures SetLine(RenderLine(CheckedBeforeMerge, v), w) == RenderLine(CheckedBeforeMerge, w)
  {
    hide FlagValue, FieldName, PlainValue, IsFlagText;
    FlagValueOfRendered(CheckedBeforeMerge, v);
    var head := "- " + FieldName(CheckedBeforeMerge) + ": ";
    assert RenderLine(CheckedBeforeMerge, v) == head + v;
    assert (head + v)[..|head|] == head;
  }

  predicate NoFlagLine(lines: Lines) {
    forall i :: 0 <= i < |lines| ==> FlagValue(lines[i]) == ""
  }

  lemma PlainIsNotEmpty(v: string)
    requires PlainValue(v)
    ensures v != ""
  {
  }

  /** Editing a printed section prints the edited payload. */
  lemma SetFlagOfRendered(intro: Lines, p: Payload, outro: Lines, w: string)
    requires NoFlagLine(intro)
    requires PlainPayload(p, PR_FIELDS) && IsFlagText(p[CheckedBeforeMerge])
    ensures SetFlag(intro + RenderLines(p, PR_FIELDS) + outro, w)
         == SomeLines(intro + RenderLines(p[CheckedBeforeMerge := w], PR_FIELDS) + outro)
  {
    hide FlagValue, SetLine, RenderLine, FieldName, FlagIndex, PlainValue, IsFlagText;
    var printed := RenderLines(p, PR_FIELDS);
    var lines := intro + printed + outro;
    var k := |intro| + 8;
    forall j | 0 <= j < 9
      ensures FlagValue(printed[j]) == if j == 8 then p[CheckedBeforeMerge] else ""
      ensures lines[|intro| + j] == printed[j]
    {
      FlagValueOfRendered(PR_FIELDS[j], p[PR_FIELDS[j]]);
    }
    forall j | 0 <= j < k
      ensures FlagValue(lines[j]) == ""
    {
      if j < |intro| {
        assert lines[j] == intro[j];
      } else {
        assert lines[j] == printed[j - |intro|];
      }
    }
    PlainIsNotEmpty(p[CheckedBeforeMerge]);
    FlagIndexIs(lines, k);
    SetLineOfRendered(p[CheckedBeforeMerge], w);
    assert lines[k] == RenderLine(CheckedBeforeMerge, p[CheckedBeforeMerge]);
    var edited := RenderLines(p[CheckedBeforeMerge := w], PR_FIELDS);
    assert edited == printed[8 := SetLine(lines[k], w)] by {
      forall j | 0 <= j < 9
        ensures edited[j] == printed[8 := SetLine(lines[k], w)][j]
      {
        assert PR_FIELDS[j] == CheckedBeforeMerge <==> j == 8;
      }
    }
  }
}
