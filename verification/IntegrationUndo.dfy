/** What undoing a recorded recheck does to the parsed fields of a description,
    once the recorded description has passed the merge gate. */
module IntegrationUndo {
  import opened Text
  import opened IntegrationContract
  import opened IntegrationText
  import opened IntegrationEdit
  import opened IntegrationRestore
  import opened IntegrationSection

  // ------------------------------------------------- texts that name the recheck

  /** The text names the recheck somewhere, in any case. */
  ghost predicate Named(s: string) {
    exists l, n, r :: NamedAt(s, l, n, r)
  }

  predicate NamedAt(s: string, l: string, n: string, r: string) {
    s == l + n + r && Lower(n) == FieldName(CheckedBeforeMerge)
  }

  /** White space is taken off around a text that starts and ends without any. */
  lemma StripAround(l: string, n: string, r: string) returns (a: string, b: string)
    requires n != "" && !IsSpace(n[0]) && !IsSpace(n[|n| - 1])
    ensures Strip(l + n + r) == a + n + b
  {
    hide StripLeft, StripRight;
    assert l + n + r == l + (n + r);
    StripLeftBefore(l, n + r);
    a := StripLeft(l);
    var y := a + n;
    assert a + (n + r) == y + r;
    assert y[|y| - 1] == n[|n| - 1];
    b := StripRightAfter(y, r);
  }

  lemma StripRightAfter(y: string, r: string) returns (b: string)
    requires y != "" && !IsSpace(y[|y| - 1])
    ensures StripRight(y + r) == y + b
  {
    hide StripRight;
    var t := StripRight(y + r);
    assert (y + r)[|y| - 1] == y[|y| - 1];
    b := t[|y|..];
    assert t == (y + r)[..|t|];
  }

  lemma StripKeepsName(s: string)
    requires Named(s)
    ensures Named(Strip(s))
  {
    hide Strip, FieldName, Lower, IsSpace;
    var l, n, r :| NamedAt(s, l, n, r);
    NameIsUncut(n);
    var a, b := StripAround(l, n, r);
    assert NamedAt(Strip(s), a, n, b);
  }

  lemma NamedInside(a: string, s: string, b: string)
    requires Named(s)
    ensures Named(a + s + b)
  {
    var l, n, r :| NamedAt(s, l, n, r);
    assert a + s + b == (a + l) + n + (r + b);
    assert NamedAt(a + s + b, a + l, n, r + b);
  }

  lemma ContinuedKeepsName(soFar: string, stripped: string)
    requires Named(soFar) || Named(stripped)
    ensures Named(Continued(soFar, stripped))
  {
    hide Strip, Named;
    NothingIsUnnamed();
    var whole := if soFar == "" then stripped else soFar + "\n" + stripped;
    if soFar != "" {
      if Named(soFar) {
        NamedInside("", soFar, "\n" + stripped);
        assert "" + soFar + ("\n" + stripped) == whole;
      } else {
        NamedInside(soFar + "\n", stripped, "");
        assert soFar + "\n" + stripped + "" == whole;
      }
    }
    StripKeepsName(whole);
  }

  lemma NothingIsUnnamed()
    ensures !Named("")
  {
    hide FieldName;
    forall l, n, r | NamedAt("", l, n, r)
      ensures false
    {
      NameIsUncut(n);
    }
  }

  lemma EditedLineIsNamed(line: Line, w: string)
    requires FlagValue(line) != "" && YesNo(w)
    ensures Named(Strip(SetLine(line, w)))
  {
    hide WellFormed, FlagValue, SetLine, Strip, StripRight, Compose;
    var p := FlagLineParts(line);
    SetLineKeepsParts(line, p, w);
    var q := p.(value := w);
    StrippedFlagLine(q);
    var x := StripRight(q.value);
    BulletIsNamed(q, x);
  }

  lemma BulletIsNamed(p: FlagParts, x: string)
    requires WellFormed(p)
    ensures Named(Bullet(p) + x)
  {
    hide IsHint, IsFlagText, Lower, FieldName;
    var r := p.hint + (p.blank + ([p.colon] + p.pad)) + x;
    assert Bullet(p) + x == ("-" + p.gap) + p.name + r;
    assert NamedAt(Bullet(p) + x, "-" + p.gap, p.name, r);
  }

  // ---------------------------------------------------------- names are not lost

  ghost predicate HoldsName(state: Parser, f: Field) {
    f in state.payload && Named(state.payload[f])
  }

  lemma NameStays(state: Parser, f: Field, line: Line)
    requires HoldsName(state, f) && !Sets(state, line, f)
    ensures HoldsName(ParseLine(state, line), f)
  {
    hide Strip, FieldOf, KeyName, SplitEntry, Continued, Named;
    if !state.closed && !IsEntry(line) && state.current == SomeField(f) && Strip(line) != "" {
      ContinuedKeepsName(state.payload[f], Strip(line));
    }
  }

  lemma {:induction false} NameStaysOnTheRun(state: Parser, f: Field, lines: Lines)
    requires HoldsName(state, f) && !SetAgain(state, f, lines)
    ensures HoldsName(ParseFrom(state, lines), f)
  {
    hide ParseLine, HoldsName, Sets;
    if lines != [] {
      var before := lines[..|lines| - 1];
      NameStaysOnTheRun(state, f, before);
      NameStays(ParseFrom(state, before), f, lines[|lines| - 1]);
    }
  }

  lemma {:induction false} SetAgainAlike(a: Parser, b: Parser, f: Field, lines: Lines)
    requires AlikeBut(a, b, f)
    ensures SetAgain(a, f, lines) <==> SetAgain(b, f, lines)
  {
    hide ParseLine, ParseFrom, AlikeBut;
    if lines != [] {
      var before := lines[..|lines| - 1];
      SetAgainAlike(a, b, f, before);
      AlikeRun(a, b, f, before);
      AlikeSets(ParseFrom(a, before), ParseFrom(b, before), f, lines[|lines| - 1]);
    }
  }

  lemma AlikeSets(a: Parser, b: Parser, f: Field, line: Line)
    requires AlikeBut(a, b, f)
    ensures Sets(a, line, f) <==> Sets(b, line, f)
  {
    hide IsEntry, FieldOf, KeyName, SplitEntry, Strip;
  }

  /** The field whose text the edit finds. */
  function HitField(lines: Lines, w: string): Field
    requires SetFlag(lines, w).SomeLines? && HitsAnother(lines, w)
  {
    ParseFrom(START, lines[..FlagIndex(lines)]).current.field
  }

  /** If an edit hits the text of a field, recording the recheck makes that field
      name the recheck. */
  lemma HitFieldNamesTheRecheck(lines: Lines, w: string)
    requires SetFlag(lines, w).SomeLines? && YesNo(w) && HitsAnother(lines, w)
    ensures SetFlag(lines, "yes").SomeLines?
    ensures var f, p := HitField(lines, w), ParseSection(SetFlag(lines, "yes").lines);
            f != CheckedBeforeMerge && f in p && Named(p[f])
  {
    hide FlagIndex, FlagValue, SetLine, SetFlag, ParseLine, ParseFrom, ParseSection, Strip, IsEntry, SetAgain, Named, Continued;
    CanBeSet(lines, w, "yes");
    EditedLines(lines, "yes");
    var i := FlagIndex(lines);
    var line, edited, rest := lines[i], SetLine(lines[i], "yes"), lines[i + 1..];
    var state := ParseFrom(START, lines[..i]);
    var f := state.current.field;
    EditedLine(line, "yes");
    EditedLineIsNamed(line, "yes");
    ReadAsMoreText(state, line, edited, f);
    ContinuedKeepsName(state.payload[f], Strip(edited));
    SetAgainAlike(ParseLine(state, line), ParseLine(state, edited), f, rest);
    NameStaysOnTheRun(ParseLine(state, edited), f, rest);
    ParseFromLine(SetFlag(lines, "yes").lines, i);
  }

  lemma CanBeSet(lines: Lines, w: string, v: string)
    requires SetFlag(lines, w).SomeLines?
    ensures SetFlag(lines, v).SomeLines?
  {
    hide FlagIndex;
  }

  /** An edit that hits a field changes that field and the recheck only. */
  lemma OnlyTheHitFieldChanges(lines: Lines, w: string)
    requires SetFlag(lines, w).SomeLines? && YesNo(w) && HitsAnother(lines, w)
    ensures var p, q := ParseSection(lines), ParseSection(SetFlag(lines, w).lines);
            p.Keys == q.Keys && forall g :: g in p && g != HitField(lines, w) ==> p[g] == q[g]
  {
    hide FlagIndex, FlagValue, SetLine, SetFlag, ParseLine, ParseFrom, ParseSection, Strip, IsEntry, SetAgain, Continued;
    EditedLines(lines, w);
    var i := FlagIndex(lines);
    var line, edited, rest := lines[i], SetLine(lines[i], w), lines[i + 1..];
    var state := ParseFrom(START, lines[..i]);
    var f := state.current.field;
    EditedLine(line, w);
    ReadAsMoreText(state, line, edited, f);
    AlikeRun(ParseLine(state, line), ParseLine(state, edited), f, rest);
    ParseFromLine(lines, i);
    ParseFromLine(SetFlag(lines, w).lines, i);
  }

  // ------------------------------------------------------------- behind the gate

  lemma NamedIsLong(s: string)
    requires Named(s)
    ensures |s| >= 39
  {
    hide FieldName;
    var l, n, r :| NamedAt(s, l, n, r);
    NameIsUncut(n);
    NameHasLength();
  }

  lemma NameHasLength()
    ensures |FieldName(CheckedBeforeMerge)| == 39
  {
  }

  lemma ChoicesAreShort(f: Field)
    ensures forall s :: s in Choices(f) ==> |s| < 39
  {
  }

  lemma NamedIsNoChoice(p: Payload, f: Field)
    requires f in p && Named(p[f]) && f in PR_FIELDS && ValidChoices(p)
    ensures Choices(f) == {}
  {
    hide Named, Choices, Strip;
    StripKeepsName(p[f]);
    NamedIsLong(Strip(p[f]));
    ChoicesAreShort(f);
  }

  /** No form of a reference recognises a text that names the recheck. */
  ghost predicate SaneForms(forms: RefForms) {
    forall s :: forms.issue(s).Identity? || forms.projectItem(s).Identity? ==> !Named(s)
  }

  lemma NamedIsNoReference(forms: RefForms, p: Payload)
    requires Reference in p && Named(p[Reference]) && SaneForms(forms)
    ensures !Checkable(forms, Raw(p, Reference)) && NormalizedRef(forms, Raw(p, Reference)) != "none"
  {
    hide Named, Strip;
    StripKeepsName(p[Reference]);
    StripKeepsName(Strip(p[Reference]));
    var s := Strip(Raw(p, Reference));
    NamedIsLong(s);
    NormalizesToNone(forms, Raw(p, Reference));
  }

  lemma OnlyTheReferenceIsFree(f: Field)
    requires Choices(f) == {}
    ensures f == Reference
  {
    assert "none" in Choices(Touchpoint) && "no" in Choices(SharedContract) && "none" in Choices(Dependency);
    assert "local_only" in Choices(Gate) && "none" in Choices(Surface) && "no" in Choices(JointAcceptance);
    assert "no" in Choices(CheckedBeforePr) && "no" in Choices(CheckedBeforeMerge);
  }

  lemma EveryFieldIsListed(f: Field)
    ensures f in PR_FIELDS
  {
    var i := match f
      case Touchpoint => 0 case SharedContract => 1 case Reference => 2 case Dependency => 3 case Gate => 4
      case Surface => 5 case JointAcceptance => 6 case CheckedBeforePr => 7 case CheckedBeforeMerge => 8;
    assert PR_FIELDS[i] == f;
  }

  /** Once the section with the recheck recorded passes the gate, no edit of the
      recheck hits a field with listed values; and if the forms of references are
      sane, none hits any other field. */
  lemma GatedEditsHitNothing(forms: RefForms, lines: Lines, w: string, canonical: Payload)
    requires SetFlag(lines, "yes").SomeLines? && YesNo(w)
    requires MergeGateProblems(forms, ParseSection(SetFlag(lines, "yes").lines), canonical, true) == []
    ensures SetFlag(lines, w).SomeLines?
    ensures HitsAnother(lines, w) ==> HitField(lines, w) == Reference && !SaneForms(forms)
  {
    hide FlagIndex, SetFlag, ParseSection, HitsAnother, Named, MergeGateProblems, Checkable, NormalizedRef, Raw, Choices,
         HitField, Value, ValidChoices, MatchesIssue;
    CanBeSet(lines, "yes", w);
    if HitsAnother(lines, w) {
      var p := ParseSection(SetFlag(lines, "yes").lines);
      HitFieldNamesTheRecheck(lines, w);
      MergeGateIsExact(forms, p, canonical, true);
      EveryFieldIsListed(HitField(lines, w));
      NamedIsNoChoice(p, HitField(lines, w));
      OnlyTheReferenceIsFree(HitField(lines, w));
      if SaneForms(forms) {
        NamedIsNoReference(forms, p);
      }
    }
  }

  /** The description with the recheck recorded passes the merge gate. */
  ghost predicate Previewed(forms: RefForms, body: Lines) {
    SetStatus(body, "yes").SomeLines?
    && exists canonical :: MergeGateProblems(forms, PrPayload(SetStatus(body, "yes").lines), canonical, true) == []
  }

  lemma EditedSectionIsOne(l: Layout, w: string)
    requires OneSection(l) && SetFlag(l.section, w).SomeLines? && YesNo(w)
    ensures OneSection(l.(section := SetFlag(l.section, w).lines))
  {
    hide HeadingName, FlagIndex, FlagValue, SetLine, IsColumnHeading;
    FlagIndexIsFirst(l.section);
    FlagLineIsNoHeading(l.section[FlagIndex(l.section)], w);
  }

  /** In a description with one section, undoing keeps every field as the parser
      reads it, but for the spelling of the recheck, exactly when nothing is hit;
      and nothing is hit if the recorded description had passed the gate. */
  lemma UndoneKeepsFields(forms: RefForms, l: Layout, after: Lines)
    requires OneSection(l) && Undone(BodyOf(l), after)
    ensures BodyOf(l) != after ==> SetFlag(l.section, ReadStatus(BodyOf(l)).value).SomeLines?
    ensures OthersKept(PrPayload(BodyOf(l)), PrPayload(after)) <==>
            BodyOf(l) == after || !HitsAnother(l.section, ReadStatus(BodyOf(l)).value)
    ensures Previewed(forms, BodyOf(l)) ==> ReferenceOnly(PrPayload(BodyOf(l)), PrPayload(after))
    ensures Previewed(forms, BodyOf(l)) && SaneForms(forms) ==> OthersKept(PrPayload(BodyOf(l)), PrPayload(after))
  {
    hide SectionSpan, SetFlag, ParseSection, SetStatus, HitsAnother, OthersKept, OneSection, BodyOf, PrPayload, ReadStatus,
         Undone, SaneForms, MergeGateProblems;
    var before := BodyOf(l);
    UndoneKeepsStatus(before, after);
    SpanOfOneSection(l);
    if before == after {
      NothingIsKept(PrPayload(before));
    } else {
      var v := UndoneValue(before, after);
      UndoneSection(l, after, v);
      if Previewed(forms, before) {
        PreviewedEditsHitNothing(forms, l, v);
        if HitsAnother(l.section, v) {
          OnlyTheHitFieldChanges(l.section, v);
        } else {
          EditKeepsOtherFieldsExactly(l.section, v);
          KeptMeansReferenceOnly(ParseSection(l.section), ParseSection(SetFlag(l.section, v).lines));
        }
      }
    }
  }

  /** Two payloads that agree but for the reference and the recheck. */
  predicate ReferenceOnly(p: Payload, q: Payload) {
    p.Keys == q.Keys && forall f :: f in p && f != CheckedBeforeMerge && f != Reference ==> p[f] == q[f]
  }

  lemma KeptMeansReferenceOnly(p: Payload, q: Payload)
    requires OthersKept(p, q)
    ensures ReferenceOnly(p, q)
  {
  }

  lemma UndoneValue(before: Lines, after: Lines) returns (v: string)
    requires Undone(before, after) && before != after
    ensures ReadStatus(before) == Status(v) && YesNo(v) && SetStatus(before, v) == SomeLines(after)
  {
    hide ReadStatus, SetStatus;
    v := ReadStatus(before).value;
    StatusIsYesOrNo(before);
  }

  lemma UndoneSection(l: Layout, after: Lines, v: string)
    requires OneSection(l) && YesNo(v) && SetStatus(BodyOf(l), v) == SomeLines(after)
    ensures SetFlag(l.section, v).SomeLines?
    ensures PrPayload(BodyOf(l)) == ParseSection(l.section)
    ensures PrPayload(after) == ParseSection(SetFlag(l.section, v).lines)
    ensures PrPayload(after).Keys == PrPayload(BodyOf(l)).Keys
    ensures OthersKept(PrPayload(BodyOf(l)), PrPayload(after)) <==> !HitsAnother(l.section, v)
  {
    hide OneSection, SetFlag, ParseSection, HitsAnother, OthersKept, PrPayload, BodyOf, ReadStatus;
    StatusOfOneSection(l, v);
    PayloadOfOneSection(l);
    EditedSectionIsOne(l, v);
    PayloadOfOneSection(l.(section := SetFlag(l.section, v).lines));
    EditKeepsOtherFieldsExactly(l.section, v);
    KeysAreKept(l.section, v);
  }

  lemma KeysAreKept(lines: Lines, v: string)
    requires SetFlag(lines, v).SomeLines? && YesNo(v)
    ensures ParseSection(SetFlag(lines, v).lines).Keys == ParseSection(lines).Keys
  {
    hide SetFlag, ParseSection, HitsAnother;
    EditKeepsOtherFieldsExactly(lines, v);
    if HitsAnother(lines, v) {
      OnlyTheHitFieldChanges(lines, v);
    }
  }

  lemma PreviewedEditsHitNothing(forms: RefForms, l: Layout, v: string)
    requires OneSection(l) && YesNo(v) && Previewed(forms, BodyOf(l))
    ensures SetFlag(l.section, v).SomeLines?
    ensures HitsAnother(l.section, v) ==> HitField(l.section, v) == Reference && !SaneForms(forms)
  {
    hide OneSection, SetFlag, ParseSection, HitsAnother, PrPayload, BodyOf, ReadStatus, SetStatus, MergeGateProblems,
         SaneForms, HitField;
    var recorded := SetStatus(BodyOf(l), "yes").lines;
    UndoneSection(l, recorded, "yes");
    var canonical :| MergeGateProblems(forms, PrPayload(recorded), canonical, true) == [];
    GatedEditsHitNothing(forms, l.section, v, canonical);
  }

  // --------------------------------------------------- recorded is not restored

  lemma RecordedValuesDiffer(body: Lines)
    requires SetStatus(body, "yes").SomeLines?
    ensures SetStatus(body, "yes") != SetStatus(body, "no")
  {
    hide SectionSpan, SetStatus, SetFlag;
    if SetStatus(body, "yes") == SetStatus(body, "no") {
      EditedBody(body, "yes");
      EditedBody(body, "no");
      FlagsDiffer(SpannedLines(body));
    }
  }

  lemma FlagsDiffer(lines: Lines)
    requires SetFlag(lines, "yes").SomeLines?
    ensures SetFlag(lines, "yes") != SetFlag(lines, "no")
  {
    hide SetFlag, FlagIndex, FlagValue, SetLine, WellFormed, Compose;
    CanBeSet(lines, "yes", "no");
    EditedLines(lines, "yes");
    EditedLines(lines, "no");
    var line := lines[FlagIndex(lines)];
    var p := FlagLineParts(line);
    SetLineKeepsParts(line, p, "yes");
    SetLineKeepsParts(line, p, "no");
    ComposedValuesDiffer(p);
  }

  lemma ComposedValuesDiffer(p: FlagParts)
    ensures Compose(p.(value := "yes")) != Compose(p.(value := "no"))
  {
    assert |Compose(p.(value := "yes"))| == |Compose(p.(value := "no"))| + 1;
  }
}
