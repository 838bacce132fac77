/** What editing the recheck in place does to the parsed fields of a section. */
module IntegrationRestore {
  import opened Text
  import opened IntegrationContract
  import opened IntegrationText
  import opened IntegrationEdit

  // ------------------------------------------------------------ stripped lines

  /** A list entry, as the parser sees it. */
  predicate IsEntry(line: Line) {
    StartsWith(Strip(line), "- ")
  }

  /** The text in front of the value, from the dash on. */
  function Bullet(p: FlagParts): string {
    "-" + (p.gap + (p.name + (p.hint + (p.blank + ([p.colon] + p.pad)))))
  }

  lemma FlagTextCore(v: string)
    requires IsFlagText(v)
    ensures var w := StripRight(v);
            w != "" && !IsSpace(w[|w| - 1]) && w <= v && ':' !in w && WIDE_COLON !in w
  {
    var w := StripRight(v);
    forall i | 0 <= i < |w|
      ensures w[i] != ':' && w[i] != WIDE_COLON
    {
      assert Lower(w)[i] == LowerChar(w[i]);
    }
  }

  lemma StrippedFlagLine(p: FlagParts)
    requires WellFormed(p)
    ensures Strip(Compose(p)) == Bullet(p) + StripRight(p.value)
  {
    hide Strip, StripLeft, StripRight, Lower, IsFlagText, IsHint, FieldName;
    FlagTextCore(p.value);
    var w := StripRight(p.value);
    var post := p.value[|w|..];
    var core := Bullet(p) + w;
    assert p.value == w + post;
    assert Compose(p) == p.margin + core + post;
    assert core[0] == '-' && core[|core| - 1] == w[|w| - 1];
    StripPadded(p.margin, core, post);
  }

  // ------------------------------------------------------- the key of an entry

  lemma {:induction false} UpToPasses(head: string, tail: string, c: char)
    requires c !in head
    ensures UpTo(head + tail, c) == head + UpTo(tail, c)
  {
    if head == "" {
      assert head + tail == tail;
    } else {
      assert (head + tail)[1..] == head[1..] + tail;
      UpToPasses(head[1..], tail, c);
    }
  }

  /** A text that is cut inside `head` is cut there whatever follows. */
  lemma CutInside(head: string, tail: string, c: char)
    requires c in head
    ensures UpTo(head + tail, c) == UpTo(head, c) && Behind(head + tail, c) == Behind(head, c) + tail
  {
    hide UpTo, Behind;
    UpToFinds(head, c);
    UpToStopsAt(UpTo(head, c), c, Behind(head, c) + tail);
    assert head + tail == UpTo(head, c) + [c] + (Behind(head, c) + tail);
  }

  lemma SplitBeforeTail(head: string, tail: string)
    requires ':' in head || WIDE_COLON in head
    requires ':' !in tail
    ensures SplitEntry(head + tail) == (SplitEntry(head).0, SplitEntry(head).1 + tail)
  {
    hide UpTo, Behind;
    if ':' in head {
      CutInside(head, tail, ':');
    } else {
      CutInside(head, tail, WIDE_COLON);
    }
  }

  /** No colon and no parenthesis. */
  predicate Uncut(s: string) {
    ':' !in s && WIDE_COLON !in s && WIDE_OPEN !in s && '(' !in s
  }

  lemma NameIsUncut(name: string)
    requires Lower(name) == FieldName(CheckedBeforeMerge)
    ensures Uncut(name) && name != "" && !IsSpace(name[0]) && !IsSpace(name[|name| - 1])
    ensures |name| == |FieldName(CheckedBeforeMerge)|
  {
    hide FieldName, PlainName;
    FieldNamesArePlain(CheckedBeforeMerge);
    assert |Lower(name)| == |name|;
    forall i | 0 <= i < |name|
      ensures name[i] !in {':', WIDE_COLON, WIDE_OPEN, '('} && !IsSpace(name[i])
    {
      assert Lower(name)[i] == LowerChar(name[i]);
    }
  }

  lemma KeyKeepsName(gap: string, name: string, tail: string)
    requires Blank(gap) && Uncut(name) && name != ""
    requires !IsSpace(name[0]) && !IsSpace(name[|name| - 1])
    ensures |KeyName(SplitEntry(gap + name + tail).0)| >= |name|
  {
    hide UpTo, Strip;
    var head := gap + name;
    UpToPasses(head, tail, ':');
    UpToPasses(head, tail, WIDE_COLON);
    var key := SplitEntry(head + tail).0;
    assert head <= key;
    var t1 := key[|head|..];
    assert key == head + t1;
    UpToPasses(head, t1, WIDE_OPEN);
    var t2 := UpTo(t1, WIDE_OPEN);
    UpToPasses(head, t2, '(');
    StripKeepsDark(gap, name, UpTo(t2, '('));
  }

  lemma StripKeepsDark(gap: string, name: string, tail: string)
    requires Blank(gap) && name != "" && !IsSpace(name[0]) && !IsSpace(name[|name| - 1])
    ensures |Strip(gap + name + tail)| >= |name|
  {
    hide StripLeft, StripRight;
    assert gap + name + tail == gap + (name + tail);
    StripLeftBehindBlank(gap, name + tail);
    var r := StripRight(name + tail);
    assert (name + tail)[|name| - 1] == name[|name| - 1];
  }

  lemma LongKeyIsTheFlag(key: string)
    requires |key| >= |FieldName(CheckedBeforeMerge)|
    ensures FieldOf(key) == NoField || FieldOf(key) == SomeField(CheckedBeforeMerge)
  {
    hide FieldName;
    var found := FieldOf(key);
    if found.SomeField? {
      assert key == FieldName(found.field);
      if found.field != CheckedBeforeMerge {
        RecheckNameIsLongest(found.field);
      }
    }
  }

  /** What the parser reads from the entry: always the same key, which is the
      recheck or nothing, and the value at the end of the value. */
  lemma FlagEntry(p: FlagParts, x: string)
    requires WellFormed(p) && ':' !in x
    ensures var head := p.gap + (p.name + (p.hint + (p.blank + ([p.colon] + p.pad))));
            && SplitEntry(head + x) == (SplitEntry(head).0, SplitEntry(head).1 + x)
            && FieldOf(KeyName(SplitEntry(head).0)) in {NoField, SomeField(CheckedBeforeMerge)}
  {
    hide SplitEntry, KeyName, FieldOf, FieldName, Lower, IsFlagText, IsHint;
    var tail := p.hint + (p.blank + ([p.colon] + p.pad));
    var head := p.gap + (p.name + tail);
    assert p.colon in [p.colon] + p.pad;
    assert p.colon in p.blank + ([p.colon] + p.pad);
    assert p.colon in tail && p.colon in head;
    SplitBeforeTail(head, x);
    NameIsUncut(p.name);
    assert head == p.gap + p.name + tail;
    KeyKeepsName(p.gap, p.name, tail);
    LongKeyIsTheFlag(KeyName(SplitEntry(head).0));
  }

  // -------------------------------------------------- two parses side by side

  /** Two parser states that differ in the value of one field at most. */
  predicate AlikeBut(a: Parser, b: Parser, g: Field) {
    && a.current == b.current && a.closed == b.closed
    && a.payload.Keys == b.payload.Keys
    && forall f :: f in a.payload && f != g ==> a.payload[f] == b.payload[f]
  }

  /** Two texts that differ in one place, where one has x and the other y. */
  ghost predicate Framed(s: string, t: string, x: string, y: string) {
    exists l, r :: s == l + x + r && t == l + y + r
  }

  /** Two values of the recheck that stem from recording x and y. */
  ghost predicate Stemming(s: string, t: string, x: string, y: string) {
    s == t || (Framed(s, t, x, y) && Trimmed(s) && Trimmed(t))
  }

  ghost predicate Twins(a: Parser, b: Parser, x: string, y: string) {
    && AlikeBut(a, b, CheckedBeforeMerge)
    && (CheckedBeforeMerge in a.payload ==>
          Stemming(a.payload[CheckedBeforeMerge], b.payload[CheckedBeforeMerge], x, y))
  }

  lemma ContinuedPlainly(soFar: string, line: Line)
    requires soFar != "" && Trimmed(soFar) && Strip(line) != ""
    ensures Continued(soFar, Strip(line)) == soFar + "\n" + Strip(line) && Trimmed(Continued(soFar, Strip(line)))
  {
    hide Strip, StripLeft, StripRight;
    StripIsTrimmed(line);
    var t := soFar + "\n" + Strip(line);
    assert t[0] == soFar[0] && t[|t| - 1] == Strip(line)[|Strip(line)| - 1];
    StripOfTrimmed(t);
  }

  lemma ContinuedStems(s: string, t: string, x: string, y: string, line: Line)
    requires Stemming(s, t, x, y) && x != "" && y != "" && Strip(line) != ""
    ensures Stemming(Continued(s, Strip(line)), Continued(t, Strip(line)), x, y)
  {
    hide Strip, Trimmed, Continued;
    if s != t {
      ContinuedPlainly(s, line);
      ContinuedPlainly(t, line);
      var l, r :| s == l + x + r && t == l + y + r;
      var r' := r + "\n" + Strip(line);
      assert Continued(s, Strip(line)) == l + x + r' && Continued(t, Strip(line)) == l + y + r';
    }
  }

  lemma AlikeEntry(a: Parser, b: Parser, g: Field, entry: string)
    requires AlikeBut(a, b, g)
    ensures AlikeBut(ParseEntry(a, entry), ParseEntry(b, entry), g)
  {
    hide Strip, FieldOf, KeyName, SplitEntry;
  }

  lemma AlikeStep(a: Parser, b: Parser, g: Field, line: Line)
    requires AlikeBut(a, b, g)
    ensures AlikeBut(ParseLine(a, line), ParseLine(b, line), g)
  {
    hide Strip, ParseEntry, Continued;
    assert a.payload == map[] <==> a.payload.Keys == {};
    assert b.payload == map[] <==> b.payload.Keys == {};
    if StartsWith(Strip(line), "- ") {
      AlikeEntry(a, b, g, Strip(line)[2..]);
    }
  }

  lemma StemStep(a: Parser, b: Parser, x: string, y: string, line: Line)
    requires Twins(a, b, x, y) && x != "" && y != ""
    ensures var c, d := ParseLine(a, line), ParseLine(b, line);
            CheckedBeforeMerge in c.payload && CheckedBeforeMerge in d.payload ==>
              Stemming(c.payload[CheckedBeforeMerge], d.payload[CheckedBeforeMerge], x, y)
  {
    hide Strip, FieldOf, KeyName, SplitEntry, Stemming, Continued;
    if CheckedBeforeMerge in a.payload && Strip(line) != "" {
      ContinuedStems(a.payload[CheckedBeforeMerge], b.payload[CheckedBeforeMerge], x, y, line);
    }
    EqualStems(x, y);
  }

  lemma TwinsStep(a: Parser, b: Parser, x: string, y: string, line: Line)
    requires Twins(a, b, x, y) && x != "" && y != ""
    ensures Twins(ParseLine(a, line), ParseLine(b, line), x, y)
  {
    hide ParseLine, Stemming;
    AlikeStep(a, b, CheckedBeforeMerge, line);
    StemStep(a, b, x, y, line);
  }

  lemma EqualStems(x: string, y: string)
    ensures forall s :: Stemming(s, s, x, y)
  {
  }

  lemma {:induction false} TwinsRun(a: Parser, b: Parser, x: string, y: string, lines: Lines)
    requires Twins(a, b, x, y) && x != "" && y != ""
    ensures Twins(ParseFrom(a, lines), ParseFrom(b, lines), x, y)
  {
    hide ParseLine, Twins;
    if lines != [] {
      var before := lines[..|lines| - 1];
      TwinsRun(a, b, x, y, before);
      TwinsStep(ParseFrom(a, before), ParseFrom(b, before), x, y, lines[|lines| - 1]);
    }
  }

  // ------------------------------------------------------ the edited entry line

  function EntryHead(p: FlagParts): string {
    p.gap + (p.name + (p.hint + (p.blank + ([p.colon] + p.pad))))
  }

  lemma GapBeforeName(gap: string, name: string)
    requires name != "" && !IsSpace(name[0]) && IsSpace((gap + name)[0])
    ensures gap != "" && gap[0] == (gap + name)[0]
  {
    assert gap + name != name;
  }

  lemma EntryGap(p: FlagParts, x: string)
    requires WellFormed(p) && StartsWith(Bullet(p) + x, "- ")
    ensures p.gap != "" && Bullet(p) + x == "- " + (EntryHead(p.(gap := p.gap[1..])) + x)
  {
    hide IsHint, IsFlagText, Lower, FieldName;
    NameIsUncut(p.name);
    assert (Bullet(p) + x)[1] == (p.gap + p.name)[0] == ' ';
    GapBeforeName(p.gap, p.name);
    assert p.gap == " " + p.gap[1..];
  }

  /** The dash of an entry is followed by a blank whatever the value. */
  lemma EntryWhateverTheValue(p: FlagParts, x: string, y: string)
    requires WellFormed(p) && StartsWith(Bullet(p) + x, "- ")
    ensures StartsWith(Bullet(p) + y, "- ")
  {
    hide WellFormed;
    EntryGap(p, x);
    assert (Bullet(p) + y)[0] == '-' && (Bullet(p) + y)[1] == (Bullet(p) + x)[1];
  }

  lemma {:induction false} StripLeftBefore(l: string, x: string)
    requires x != "" && !IsSpace(x[0])
    ensures StripLeft(l + x) == StripLeft(l) + x
  {
    if l == "" {
      assert l + x == x;
    } else {
      assert (l + x)[1..] == l[1..] + x;
      StripLeftBefore(l[1..], x);
    }
  }

  predicate Dark(x: string) {
    x != "" && !IsSpace(x[0]) && !IsSpace(x[|x| - 1]) && ':' !in x
  }

  lemma DarkEndStays(l: string, x: string)
    requires Dark(x)
    ensures StripRight(l + x) == l + x
  {
    assert (l + x)[|l + x| - 1] == x[|x| - 1];
    StripRightOfDark(l + x);
  }

  lemma StripBefore(after: string, x: string)
    requires Dark(x)
    ensures Strip(after + x) == StripLeft(after) + x
  {
    hide StripRight, StripLeft;
    StripLeftBefore(after, x);
    DarkEndStays(StripLeft(after), x);
  }

  lemma ValueStems(after: string, x: string, y: string)
    requires Dark(x) && Dark(y)
    ensures Stemming(Strip(after + x), Strip(after + y), x, y)
  {
    hide Strip, StripLeft, Trimmed, Dark;
    StripBefore(after, x);
    StripBefore(after, y);
    StripIsTrimmed(after + x);
    StripIsTrimmed(after + y);
    var l := StripLeft(after);
    assert Strip(after + x) == l + x + "" && Strip(after + y) == l + y + "";
  }

  lemma StripRightOfDark(s: string)
    requires s != "" && !IsSpace(s[|s| - 1])
    ensures StripRight(s) == s
  {
  }

  lemma EntryStep(state: Parser, p: FlagParts, x: string, y: string)
    requires WellFormed(p) && Dark(x) && Dark(y)
    ensures Twins(ParseEntry(state, EntryHead(p) + x), ParseEntry(state, EntryHead(p) + y), x, y)
  {
    hide WellFormed, Strip, KeyName, FieldOf, SplitEntry, Stemming, EntryHead;
    FlagEntryAt(p, x);
    FlagEntryAt(p, y);
    EqualStems(x, y);
    ValueStems(SplitEntry(EntryHead(p)).1, x, y);
  }

  lemma FlagEntryAt(p: FlagParts, x: string)
    requires WellFormed(p) && ':' !in x
    ensures SplitEntry(EntryHead(p) + x) == (SplitEntry(EntryHead(p)).0, SplitEntry(EntryHead(p)).1 + x)
    ensures FieldOf(KeyName(SplitEntry(EntryHead(p)).0)) in {NoField, SomeField(CheckedBeforeMerge)}
  {
    hide WellFormed, SplitEntry, KeyName, FieldOf;
    FlagEntry(p, x);
  }

  lemma FlagStep(state: Parser, line: Line, w: string)
    requires FlagValue(line) != "" && IsEntry(line) && YesNo(w)
    ensures Dark(StripRight(FlagValue(line))) && Dark(w) && IsEntry(SetLine(line, w))
    ensures Twins(ParseLine(state, line), ParseLine(state, SetLine(line, w)), StripRight(FlagValue(line)), w)
  {
    hide WellFormed, Compose, FlagValue, SetLine, Strip, ParseEntry, StripRight, Bullet, EntryHead, IsFlagText, Stemming;
    var p := FlagLineParts(line);
    SetLineKeepsParts(line, p, w);
    var q := p.(value := w);
    FlagValueIsDark(p);
    FlagValueIsDark(q);
    YesNoIsStripped(w);
    StrippedFlagLine(p);
    StrippedFlagLine(q);
    assert Bullet(q) == Bullet(p) by { BulletWhateverTheValue(p, w); }
    var x := StripRight(p.value);
    EntryGap(p, x);
    EntryWhateverTheValue(p, x, w);
    EntryGap(p, w);
    var g := p.(gap := p.gap[1..]);
    ShorterGap(p);
    EntryStep(state, g, x, w);
    EqualStems(x, w);
    assert (Bullet(p) + x)[2..] == EntryHead(g) + x;
    assert (Bullet(p) + w)[2..] == EntryHead(g) + w;
  }

  lemma ShorterGap(p: FlagParts)
    requires WellFormed(p) && p.gap != ""
    ensures WellFormed(p.(gap := p.gap[1..]))
  {
    hide IsHint, IsFlagText, Lower, FieldName;
  }

  lemma BulletWhateverTheValue(p: FlagParts, w: string)
    ensures Bullet(p.(value := w)) == Bullet(p)
  {
  }

  lemma YesNoIsStripped(w: string)
    requires YesNo(w)
    ensures StripRight(w) == w
  {
  }

  lemma FlagValueIsDark(p: FlagParts)
    requires WellFormed(p)
    ensures Dark(StripRight(p.value))
  {
    hide IsHint, IsFlagText, Lower, FieldName, StripRight;
    FlagTextCore(p.value);
  }

  // ------------------------------------------------------------ whole sections

  /** The lines from one line on are parsed from the state in front of it. */
  lemma ParseFromLine(lines: Lines, i: nat)
    requires i < |lines|
    ensures ParseSection(lines)
         == ParseFrom(ParseLine(ParseFrom(START, lines[..i]), lines[i]), lines[i + 1..]).payload
  {
    hide ParseLine;
    assert lines == lines[..i] + ([lines[i]] + lines[i + 1..]);
    ParseConcat(START, lines[..i], [lines[i]] + lines[i + 1..]);
    ParseConcat(ParseFrom(START, lines[..i]), [lines[i]], lines[i + 1..]);
    assert [lines[i]][..0] == [];
  }

  lemma EditedLines(lines: Lines, w: string)
    requires SetFlag(lines, w).SomeLines?
    ensures var i, out := FlagIndex(lines), SetFlag(lines, w).lines;
            && i < |lines| == |out| && FlagValue(lines[i]) != ""
            && out[..i] == lines[..i] && out[i] == SetLine(lines[i], w) && out[i + 1..] == lines[i + 1..]
  {
    hide FlagValue, SetLine;
    FlagIndexIsFirst(lines);
  }

  lemma EditedSection(lines: Lines, w: string) returns (x: string, a: Parser, b: Parser)
    requires SetFlag(lines, w).SomeLines? && IsEntry(lines[FlagIndex(lines)]) && YesNo(w)
    ensures Twins(a, b, x, w) && x == StripRight(FlagValue(lines[FlagIndex(lines)]))
    ensures a.payload == ParseSection(lines) && b.payload == ParseSection(SetFlag(lines, w).lines)
  {
    hide FlagIndex, FlagValue, SetLine, ParseLine, ParseFrom, ParseSection, Twins, SetFlag, IsEntry, StripRight;
    EditedLines(lines, w);
    var i, out := FlagIndex(lines), SetFlag(lines, w).lines;
    x := StripRight(FlagValue(lines[i]));
    var state := ParseFrom(START, lines[..i]);
    FlagStep(state, lines[i], w);
    var c, d := ParseLine(state, lines[i]), ParseLine(state, out[i]);
    TwinsRun(c, d, x, w, lines[i + 1..]);
    a, b := ParseFrom(c, lines[i + 1..]), ParseFrom(d, lines[i + 1..]);
    ParseFromLine(lines, i);
    ParseFromLine(out, i);
  }

  /** Recording in a list entry changes no other field, whatever surrounds it. */
  lemma EditKeepsOtherFields(lines: Lines, w: string)
    requires SetFlag(lines, w).SomeLines? && IsEntry(lines[FlagIndex(lines)]) && YesNo(w)
    ensures var p, q := ParseSection(lines), ParseSection(SetFlag(lines, w).lines);
            p.Keys == q.Keys && forall f :: f in p && f != CheckedBeforeMerge ==> p[f] == q[f]
  {
    hide SetFlag, ParseSection, Stemming, IsEntry, FlagIndex, FlagValue;
    var x, a, b := EditedSection(lines, w);
  }

  /** Two framed texts read as yes or no only if nothing else is around the value. */
  lemma FramedFlag(s: string, t: string, x: string, y: string)
    requires Framed(s, t, x, y) && YesNo(Lower(s)) && YesNo(Lower(x)) && y == Lower(s)
    ensures t == y
  {
    var l, r :| s == l + x + r && t == l + y + r;
    LowerConcat(l + x, r);
    LowerConcat(l, x);
    assert Lower(s) == Lower(l) + Lower(x) + Lower(r);
    if Lower(s) == "yes" {
      assert Lower(s)[|l|] == Lower(x)[0];
    }
    assert |l| + |r| == 0;
  }

  lemma StemmingFlag(s: string, t: string, x: string, prev: string)
    requires Stemming(s, t, x, prev) && YesNo(Lower(x))
    requires YesNo(prev) && Lower(Strip(s)) == prev
    ensures Lower(Strip(t)) == prev
  {
    hide Strip, StripLeft, StripRight, Framed;
    if s != t {
      StripOfTrimmed(s);
      FramedFlag(s, t, x, prev);
      StripOfTrimmed(t);
    }
  }

  lemma FlagTextIsFlag(line: Line)
    requires FlagValue(line) != ""
    ensures YesNo(Lower(StripRight(FlagValue(line))))
  {
    hide WellFormed, FlagValue, StripRight, Lower;
    var p := FlagLineParts(line);
    assert IsFlagText(p.value) by { PartsValue(p); }
  }

  lemma PartsValue(p: FlagParts)
    requires WellFormed(p)
    ensures IsFlagText(p.value)
  {
    hide IsFlagText;
  }

  // ------------------------------------------------- when the edit hits another

  /** A later entry sets the field again while the section is still being read. */
  predicate SetAgain(state: Parser, f: Field, lines: Lines) {
    && lines != []
    && var before := lines[..|lines| - 1];
       var line := lines[|lines| - 1];
       SetAgain(state, f, before) || Sets(ParseFrom(state, before), line, f)
  }

  /** The edited line is read as more text of another field. */
  predicate Continues(state: Parser, line: Line, f: Field) {
    && !state.closed && !IsEntry(line)
    && state.current == SomeField(f) && f in state.payload && line != "" && IsSpace(line[0])
  }

  predicate Apart(a: Parser, b: Parser, f: Field) {
    && f in a.payload && f in b.payload && a.payload[f] != b.payload[f]
    && a.payload[f] != "" && b.payload[f] != "" && Trimmed(a.payload[f]) && Trimmed(b.payload[f])
  }

  predicate Same(a: Parser, b: Parser, f: Field) {
    f in a.payload && f in b.payload && a.payload[f] == b.payload[f]
  }

  predicate Sets(state: Parser, line: Line, f: Field) {
    !state.closed && IsEntry(line) && FieldOf(KeyName(SplitEntry(Strip(line)[2..]).0)) == SomeField(f)
  }

  lemma SameStep(a: Parser, b: Parser, f: Field, line: Line)
    requires AlikeBut(a, b, f) && Same(a, b, f)
    ensures Same(ParseLine(a, line), ParseLine(b, line), f)
  {
    hide Strip, FieldOf, KeyName, SplitEntry, Continued;
  }

  lemma SetStep(a: Parser, b: Parser, f: Field, line: Line)
    requires AlikeBut(a, b, f) && Sets(a, line, f)
    ensures Same(ParseLine(a, line), ParseLine(b, line), f)
  {
    hide Strip, FieldOf, KeyName, SplitEntry, Continued;
  }

  lemma ContinuedApart(s: string, t: string, line: Line)
    requires s != t && s != "" && t != "" && Trimmed(s) && Trimmed(t) && Strip(line) != ""
    ensures var c, d := Continued(s, Strip(line)), Continued(t, Strip(line));
            c != d && c != "" && d != "" && Trimmed(c) && Trimmed(d)
  {
    hide Strip, Continued, Trimmed;
    ContinuedPlainly(s, line);
    ContinuedPlainly(t, line);
    var u := "\n" + Strip(line);
    var c, d := s + u, t + u;
    assert s + "\n" + Strip(line) == c && t + "\n" + Strip(line) == d;
    assert c[..|c| - |u|] == s && d[..|d| - |u|] == t;
  }

  lemma ApartStep(a: Parser, b: Parser, f: Field, line: Line)
    requires AlikeBut(a, b, f) && Apart(a, b, f) && !Sets(a, line, f)
    ensures Apart(ParseLine(a, line), ParseLine(b, line), f)
  {
    hide Strip, FieldOf, KeyName, SplitEntry, Continued, Trimmed;
    if Strip(line) != "" {
      ContinuedApart(a.payload[f], b.payload[f], line);
    }
  }

  lemma {:induction false} ApartRun(a: Parser, b: Parser, f: Field, lines: Lines)
    requires AlikeBut(a, b, f) && Apart(a, b, f)
    ensures var c, d := ParseFrom(a, lines), ParseFrom(b, lines);
            AlikeBut(c, d, f) && if SetAgain(a, f, lines) then Same(c, d, f) else Apart(c, d, f)
  {
    hide ParseLine, AlikeBut, Apart, Same, Sets;
    if lines != [] {
      var before := lines[..|lines| - 1];
      var line := lines[|lines| - 1];
      ApartRun(a, b, f, before);
      var c, d := ParseFrom(a, before), ParseFrom(b, before);
      AlikeStep(c, d, f, line);
      if Sets(c, line, f) {
        SetStep(c, d, f, line);
      } else if SetAgain(a, f, before) {
        SameStep(c, d, f, line);
      } else {
        ApartStep(c, d, f, line);
      }
    }
  }

  predicate TrimmedValues(p: Payload) {
    forall f :: f in p ==> Trimmed(p[f])
  }

  lemma {:induction false} ParsedValuesAreTrimmed(lines: Lines)
    ensures TrimmedValues(ParseFrom(START, lines).payload)
  {
    hide ParseLine, Trimmed;
    if lines != [] {
      ParsedValuesAreTrimmed(lines[..|lines| - 1]);
      LineKeepsValuesTrimmed(ParseFrom(START, lines[..|lines| - 1]), lines[|lines| - 1]);
    }
  }

  lemma LineKeepsValuesTrimmed(state: Parser, line: Line)
    requires TrimmedValues(state.payload)
    ensures TrimmedValues(ParseLine(state, line).payload)
  {
    hide Strip, Trimmed, FieldOf, KeyName, SplitEntry;
    if StartsWith(Strip(line), "- ") {
      StripIsTrimmed(SplitEntry(Strip(line)[2..]).1);
    }
    if state.current.SomeField? && state.current.field in state.payload {
      var soFar := state.payload[state.current.field];
      StripIsTrimmed(if soFar == "" then Strip(line) else soFar + "\n" + Strip(line));
    }
  }

  /** An edited line starts like the line and is an entry exactly when it was. */
  lemma EditedLine(line: Line, w: string)
    requires FlagValue(line) != "" && YesNo(w)
    ensures var edited := SetLine(line, w);
            && line != "" && edited != "" && edited[0] == line[0]
            && Strip(line) != "" && Strip(edited) != ""
            && (IsEntry(line) <==> IsEntry(edited))
  {
    hide WellFormed, Compose, FlagValue, SetLine, Strip, Bullet, IsFlagText, StripRight;
    var p := FlagLineParts(line);
    SetLineKeepsParts(line, p, w);
    var q := p.(value := w);
    StrippedFlagLine(p);
    StrippedFlagLine(q);
    BulletWhateverTheValue(p, w);
    BulletIsNotEmpty(p);
    if IsEntry(line) {
      EntryWhateverTheValue(p, StripRight(p.value), StripRight(w));
    }
    if IsEntry(SetLine(line, w)) {
      EntryWhateverTheValue(p, StripRight(w), StripRight(p.value));
    }
    ComposedStart(p, w);
  }

  lemma BulletIsNotEmpty(p: FlagParts)
    ensures Bullet(p) != ""
  {
  }

  lemma ComposedStart(p: FlagParts, w: string)
    ensures Compose(p) != "" && Compose(p.(value := w)) != "" && Compose(p)[0] == Compose(p.(value := w))[0]
  {
    assert p.margin == "" ==> Compose(p)[0] == '-' && Compose(p.(value := w))[0] == '-';
    assert p.margin != "" ==> Compose(p)[0] == p.margin[0] && Compose(p.(value := w))[0] == p.margin[0];
  }

  /** The field whose text an edit of the line would change by mistake. */
  predicate HitsAnother(lines: Lines, w: string)
    requires SetFlag(lines, w).SomeLines?
  {
    var i := FlagIndex(lines);
    var state := ParseFrom(START, lines[..i]);
    && state.current.SomeField? && state.current.field != CheckedBeforeMerge
    && Continues(state, lines[i], state.current.field)
    && Strip(lines[i]) != Strip(SetLine(lines[i], w))
    && !SetAgain(ParseLine(state, lines[i]), state.current.field, lines[i + 1..])
  }

  predicate OthersKept(p: Payload, q: Payload) {
    p.Keys == q.Keys && forall f :: f in p && f != CheckedBeforeMerge ==> p[f] == q[f]
  }

  /** A line that is no entry is read the same before and after an edit, unless
      it is read as more text of the current field. */
  lemma ReadOtherwise(state: Parser, line: Line, edited: Line)
    requires line != "" && edited != "" && line[0] == edited[0] && Strip(line) != "" && Strip(edited) != ""
    requires !IsEntry(line) && !IsEntry(edited)
    requires state.current.SomeField? ==> !Continues(state, line, state.current.field)
    ensures ParseLine(state, line) == ParseLine(state, edited)
  {
    hide Strip;
  }

  lemma ReadAsMoreText(state: Parser, line: Line, edited: Line, f: Field)
    requires line != "" && edited != "" && line[0] == edited[0] && Strip(line) != "" && Strip(edited) != ""
    requires !IsEntry(edited) && Continues(state, line, f)
    ensures ParseLine(state, line) == state.(payload := state.payload[f := Continued(state.payload[f], Strip(line))])
    ensures ParseLine(state, edited)
         == state.(payload := state.payload[f := Continued(state.payload[f], Strip(edited))])
  {
    hide Strip, Continued;
  }

  lemma MoreTextIsApart(soFar: string, line: Line, edited: Line)
    requires Trimmed(soFar) && Strip(line) != "" && Strip(edited) != "" && Strip(line) != Strip(edited)
    ensures var c, d := Continued(soFar, Strip(line)), Continued(soFar, Strip(edited));
            c != d && c != "" && d != "" && Trimmed(c) && Trimmed(d)
  {
    hide Strip, Trimmed;
    StripIsTrimmed(line);
    StripIsTrimmed(edited);
    if soFar == "" {
      StripOfTrimmed(Strip(line));
      StripOfTrimmed(Strip(edited));
    } else {
      ContinuedPlainly(soFar, line);
      ContinuedPlainly(soFar, edited);
      var head := soFar + "\n";
      assert (head + Strip(line))[|head|..] == Strip(line);
      assert (head + Strip(edited))[|head|..] == Strip(edited);
    }
  }

  lemma {:induction false} AlikeRun(a: Parser, b: Parser, g: Field, lines: Lines)
    requires AlikeBut(a, b, g)
    ensures AlikeBut(ParseFrom(a, lines), ParseFrom(b, lines), g)
  {
    hide ParseLine, AlikeBut;
    if lines != [] {
      AlikeRun(a, b, g, lines[..|lines| - 1]);
      AlikeStep(ParseFrom(a, lines[..|lines| - 1]), ParseFrom(b, lines[..|lines| - 1]), g, lines[|lines| - 1]);
    }
  }

  lemma MoreTextRun(state: Parser, line: Line, edited: Line, f: Field, rest: Lines)
    requires line != "" && edited != "" && line[0] == edited[0] && Strip(line) != "" && Strip(edited) != ""
    requires !IsEntry(edited) && Continues(state, line, f) && f != CheckedBeforeMerge
    requires Trimmed(state.payload[f])
    ensures var a, b := ParseFrom(ParseLine(state, line), rest), ParseFrom(ParseLine(state, edited), rest);
            OthersKept(a.payload, b.payload) <==>
            Strip(line) == Strip(edited) || SetAgain(ParseLine(state, line), f, rest)
  {
    hide Strip, ParseLine, SetAgain, ParseFrom, Continued, Trimmed, IsEntry;
    ReadAsMoreText(state, line, edited, f);
    if Strip(line) != Strip(edited) {
      MoreTextIsApart(state.payload[f], line, edited);
      ApartRun(ParseLine(state, line), ParseLine(state, edited), f, rest);
    }
  }

  /** An edit leaves the other fields alone exactly when the line it finds is not
      more text of another field that is still in force. */
  lemma EditKeepsOtherFieldsExactly(lines: Lines, w: string)
    requires SetFlag(lines, w).SomeLines? && YesNo(w)
    ensures OthersKept(ParseSection(lines), ParseSection(SetFlag(lines, w).lines)) <==> !HitsAnother(lines, w)
  {
    hide SetFlag, SetLine, FlagValue, FlagIndex, ParseSection, ParseLine, ParseFrom, Strip, IsEntry, SetAgain, Trimmed;
    var i := FlagIndex(lines);
    EditedLines(lines, w);
    var line, edited, rest := lines[i], SetLine(lines[i], w), lines[i + 1..];
    var state := ParseFrom(START, lines[..i]);
    EditedLine(line, w);
    ParseFromLine(lines, i);
    ParseFromLine(SetFlag(lines, w).lines, i);
    if IsEntry(line) {
      EditKeepsOtherFields(lines, w);
    } else if state.current.SomeField? && Continues(state, line, state.current.field) {
      var f := state.current.field;
      if f == CheckedBeforeMerge {
        ReadAsMoreText(state, line, edited, f);
        AlikeRun(ParseLine(state, line), ParseLine(state, edited), f, rest);
      } else {
        ParsedValuesAreTrimmed(lines[..i]);
        MoreTextRun(state, line, edited, f, rest);
      }
    } else {
      ReadOtherwise(state, line, edited);
    }
  }

  lemma MoreFlagTextStems(soFar: string, line: Line, w: string)
    requires FlagValue(line) != "" && YesNo(w) && Trimmed(soFar)
    ensures Strip(line) != "" && Strip(SetLine(line, w)) != ""
    ensures Stemming(Continued(soFar, Strip(line)), Continued(soFar, Strip(SetLine(line, w))),
                     StripRight(FlagValue(line)), w)
  {
    hide WellFormed, Compose, FlagValue, SetLine, Strip, Bullet, IsFlagText, StripRight, Trimmed, Continued;
    var p := FlagLineParts(line);
    SetLineKeepsParts(line, p, w);
    var q := p.(value := w);
    var edited := SetLine(line, w);
    StrippedFlagLine(p);
    StrippedFlagLine(q);
    BulletWhateverTheValue(p, w);
    BulletIsNotEmpty(p);
    YesNoIsStripped(w);
    ContinuedStripped(soFar, line);
    ContinuedStripped(soFar, edited);
    var l := (if soFar == "" then "" else soFar + "\n") + Bullet(p);
    assert Continued(soFar, Strip(line)) == l + StripRight(p.value) + "";
    assert Continued(soFar, Strip(edited)) == l + w + "";
  }

  lemma ContinuedStripped(soFar: string, line: Line)
    requires Trimmed(soFar) && Strip(line) != ""
    ensures Continued(soFar, Strip(line)) == (if soFar == "" then "" else soFar + "\n") + Strip(line)
    ensures Trimmed(Continued(soFar, Strip(line)))
  {
    hide Strip, Trimmed;
    StripIsTrimmed(line);
    if soFar == "" {
      StripOfTrimmed(Strip(line));
    } else {
      ContinuedPlainly(soFar, line);
    }
  }

  /** Two states behind the edited line: twins, or alike but for another field. */
  lemma BehindEditedLine(state: Parser, line: Line, w: string)
    requires FlagValue(line) != "" && YesNo(w) && TrimmedValues(state.payload)
    ensures var c, d := ParseLine(state, line), ParseLine(state, SetLine(line, w));
            || Twins(c, d, StripRight(FlagValue(line)), w)
            || (state.current.SomeField? && state.current.field != CheckedBeforeMerge
                && AlikeBut(c, d, state.current.field))
  {
    hide FlagValue, SetLine, ParseLine, Strip, IsEntry, Trimmed, Stemming, Continued, StripRight;
    EditedLine(line, w);
    var edited, x := SetLine(line, w), StripRight(FlagValue(line));
    EqualStems(x, w);
    if IsEntry(line) {
      FlagStep(state, line, w);
    } else if state.current.SomeField? && Continues(state, line, state.current.field) {
      var f := state.current.field;
      ReadAsMoreText(state, line, edited, f);
      MoreFlagTextStems(state.payload[f], line, w);
    } else {
      ReadOtherwise(state, line, edited);
    }
  }

  /** Recording the value that the section already has keeps it, wherever the
      edited line stands. */
  lemma RecordingTheReadValue(lines: Lines, prev: string)
    requires SetFlag(lines, prev).SomeLines?
    requires YesNo(prev) && Value(ParseSection(lines), CheckedBeforeMerge) == prev
    ensures Value(ParseSection(SetFlag(lines, prev).lines), CheckedBeforeMerge) == prev
  {
    hide SetFlag, SetLine, FlagValue, FlagIndex, ParseSection, ParseLine, ParseFrom, Strip, Lower, Trimmed, Stemming,
         StripRight;
    var i := FlagIndex(lines);
    EditedLines(lines, prev);
    var line, edited, rest := lines[i], SetLine(lines[i], prev), lines[i + 1..];
    var state := ParseFrom(START, lines[..i]);
    ParseFromLine(lines, i);
    ParseFromLine(SetFlag(lines, prev).lines, i);
    ParsedValuesAreTrimmed(lines[..i]);
    BehindEditedLine(state, line, prev);
    var c, d, x := ParseLine(state, line), ParseLine(state, edited), StripRight(FlagValue(line));
    var a, b := ParseFrom(c, rest), ParseFrom(d, rest);
    FlagTextIsFlag(line);
    if Twins(c, d, x, prev) {
      TwinsRun(c, d, x, prev, rest);
      if CheckedBeforeMerge in a.payload {
        StemmingFlag(a.payload[CheckedBeforeMerge], b.payload[CheckedBeforeMerge], x, prev);
      }
    } else {
      AlikeRun(c, d, state.current.field, rest);
    }
  }

  /** Recording the recheck and then restoring the value read before leaves that
      value as it was, and the other fields exactly when restoring does not hit
      the text of another field. */
  lemma RestoreUndoesRecord(lines: Lines, prev: string)
    requires SetFlag(lines, "yes").SomeLines?
    requires YesNo(prev) && Value(ParseSection(lines), CheckedBeforeMerge) == prev
    ensures var restored := SetFlag(SetFlag(lines, "yes").lines, prev);
            && restored.SomeLines? && restored == SetFlag(lines, prev)
            && Value(ParseSection(restored.lines), CheckedBeforeMerge) == prev
            && (OthersKept(ParseSection(lines), ParseSection(restored.lines)) <==> !HitsAnother(lines, prev))
  {
    hide SetLine, FlagIndex, ParseSection, Strip, Lower, FlagValue, OthersKept, HitsAnother;
    SetFlagTwice(lines, "yes", prev);
    RecordingTheReadValue(lines, prev);
    EditKeepsOtherFieldsExactly(lines, prev);
  }

  /** A recheck line written under another field, without a blank behind its
      dash, is text of that field for the parser and the recheck for the editor. */
  lemma ContinuationLineIsHit()
    ensures var lines := [RenderLine(Touchpoint, "none"), "  -" + FieldName(CheckedBeforeMerge) + ": no"];
            SetFlag(lines, "yes").SomeLines? && HitsAnother(lines, "yes")
  {
    hide FieldName, FlagIndex, FlagValue, ParseLine, Strip, RenderLine, SetLine, WellFormed, Compose, IsEntry, Bullet;
    var line := "  -" + FieldName(CheckedBeforeMerge) + ": no";
    var lines := [RenderLine(Touchpoint, "none"), line];
    var p := FlagParts("  ", "", FieldName(CheckedBeforeMerge), "", "", ':', " ", "no");
    ContinuationParts(p);
    ComposedIsFlagLine(p);
    FlagValueOfRendered(Touchpoint, "none");
    FlagIndexIs(lines, 1);
    assert lines[..1] == [lines[0]];
    ParseOfOne(START, lines[0]);
    assert PlainValue("none");
    ParseRendered(START, Touchpoint, "none");
    SetLineKeepsParts(line, p, "yes");
    StrippedContinuation(p);
    assert line[0] == ' ';
    var state := ParseFrom(START, lines[..1]);
    assert state == ParseLine(START, lines[0]);
    assert Continues(state, line, Touchpoint);
    assert lines[1 + 1..] == [];
    assert lines[1] == line;
  }

  lemma ContinuationParts(p: FlagParts)
    requires p == FlagParts("  ", "", FieldName(CheckedBeforeMerge), "", "", ':', " ", "no")
    ensures WellFormed(p) && Compose(p) == "  -" + FieldName(CheckedBeforeMerge) + ": no"
  {
    hide FieldName, IsFlagText;
    LowerOfName(CheckedBeforeMerge);
    YesNoIsFlagText("no");
  }

  lemma StrippedContinuation(p: FlagParts)
    requires p == FlagParts("  ", "", FieldName(CheckedBeforeMerge), "", "", ':', " ", "no") && WellFormed(p)
    requires WellFormed(p.(value := "yes"))
    ensures !IsEntry(Compose(p)) && Strip(Compose(p)) != Strip(Compose(p.(value := "yes")))
  {
    hide FieldName, Strip, Compose, WellFormed, StripRight;
    StrippedFlagLine(p);
    StrippedFlagLine(p.(value := "yes"));
    YesNoIsStripped("no");
    YesNoIsStripped("yes");
    BulletWhateverTheValue(p, "yes");
    NameStartsDark(CheckedBeforeMerge);
    assert (Bullet(p) + "no")[1] == FieldName(CheckedBeforeMerge)[0];
    assert |Bullet(p) + "no"| != |Bullet(p) + "yes"|;
  }
}
