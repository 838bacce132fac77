/** The integration section of a pull request description, as lines of text:
    how it is printed, found, parsed and edited in place. */
module IntegrationText {
  import opened Text
  import opened IntegrationContract

  type Line = string
  type Lines = seq<Line>

  const WIDE_COLON := '\U{FF1A}'
  const WIDE_OPEN := '\U{FF08}'
  const WIDE_CLOSE := '\U{FF09}'

  // ---------------------------------------------------------------- the parser

  datatype FieldOption = NoField | SomeField(field: Field)

  function FieldOf(name: string): FieldOption {
    if name == FieldName(Touchpoint) then SomeField(Touchpoint)
    else if name == FieldName(SharedContract) then SomeField(SharedContract)
    else if name == FieldName(Reference) then SomeField(Reference)
    else if name == FieldName(Dependency) then SomeField(Dependency)
    else if name == FieldName(Gate) then SomeField(Gate)
    else if name == FieldName(Surface) then SomeField(Surface)
    else if name == FieldName(JointAcceptance) then SomeField(JointAcceptance)
    else if name == FieldName(CheckedBeforePr) then SomeField(CheckedBeforePr)
    else if name == FieldName(CheckedBeforeMerge) then SomeField(CheckedBeforeMerge)
    else NoField
  }

  /** Key and value of a list entry: split at the first colon, or at the first
      wide colon when there is no other. */
  function SplitEntry(entry: string): (string, string) {
    if ':' in entry then (UpTo(entry, ':'), Behind(entry, ':'))
    else (UpTo(entry, WIDE_COLON), Behind(entry, WIDE_COLON))
  }

  /** A key without the hint in parentheses behind it. */
  function KeyName(key: string): string {
    Strip(UpTo(UpTo(key, WIDE_OPEN), '('))
  }

  datatype Parser = Parser(payload: Payload, current: FieldOption, closed: bool)

  const START := Parser(map[], NoField, false)

  /** What a continuation line makes of a value. */
  function Continued(soFar: string, stripped: string): string {
    Strip(if soFar == "" then stripped else soFar + "\n" + stripped)
  }

  function ParseLine(state: Parser, line: Line): Parser {
    var stripped := Strip(line);
    if state.closed then state
    else if StartsWith(stripped, "- ") then ParseEntry(state, stripped[2..])
    else if state.current.SomeField? && state.current.field in state.payload && stripped != "" && IsSpace(line[0]) then
      var f := state.current.field;
      state.(payload := state.payload[f := Continued(state.payload[f], stripped)])
    else if stripped != "" then
      Parser(state.payload, NoField, state.payload != map[])
    else state
  }

  function ParseEntry(state: Parser, entry: string): Parser {
    var (key, value) := SplitEntry(entry);
    match FieldOf(KeyName(key))
    case NoField => state.(current := NoField)
    case SomeField(f) => state.(payload := state.payload[f := Strip(value)], current := SomeField(f))
  }

  function ParseFrom(state: Parser, lines: Lines): Parser {
    if lines == [] then state else ParseLine(ParseFrom(state, lines[..|lines| - 1]), lines[|lines| - 1])
  }

  function ParseSection(lines: Lines): Payload {
    ParseFrom(START, lines).payload
  }

  lemma NothingStripsToNothing(line: Line)
    ensures Strip(line) != "" ==> line != ""
  {
  }

  method ParseIntegrationCheckPayload(lines: Lines) returns (payload: Payload)
    ensures payload == ParseSection(lines)
  {
    hide Strip, FieldOf, KeyName, SplitEntry, Continued;
    payload := map[];
    var current := NoField;
    var closed := false;
    for i := 0 to |lines|
      invariant Parser(payload, current, closed) == ParseFrom(START, lines[..i])
      invariant current.SomeField? ==> current.field in payload
    {
      assert lines[..i + 1][..i] == lines[..i];
      var stripped := Strip(lines[i]);
      NothingStripsToNothing(lines[i]);
      if !closed {
        if StartsWith(stripped, "- ") {
          var (key, value) := SplitEntry(stripped[2..]);
          current := FieldOf(KeyName(key));
          if current.SomeField? {
            payload := payload[current.field := Strip(value)];
          }
        } else if current.SomeField? && stripped != "" && IsSpace(lines[i][0]) {
          payload := payload[current.field := Continued(payload[current.field], stripped)];
        } else if stripped != "" {
          current := NoField;
          closed := payload != map[];
        }
      }
    }
    assert lines[..|lines|] == lines;
  }

  lemma {:induction false} ParseConcat(state: Parser, a: Lines, b: Lines)
    ensures ParseFrom(state, a + b) == ParseFrom(ParseFrom(state, a), b)
  {
    hide ParseLine;
    if b == [] {
      assert a + b == a;
    } else {
      assert (a + b)[..|a + b| - 1] == a + b[..|b| - 1];
      ParseConcat(state, a, b[..|b| - 1]);
    }
  }

  lemma ParseOfOne(state: Parser, line: Line)
    ensures ParseFrom(state, [line]) == ParseLine(state, line)
  {
    hide ParseLine;
    assert [line][..0] == [];
  }

  // --------------------------------------------------------------- the printer

  /** A value that survives printing on one line. */
  predicate PlainValue(v: string) {
    v != "" && Trimmed(v) && OneLine(v)
  }

  function RenderLine(f: Field, v: string): Line {
    "- " + FieldName(f) + ": " + v
  }

  function RenderLines(p: Payload, fields: seq<Field>): Lines
    requires forall f :: f in fields ==> f in p
  {
    seq(|fields|, i requires 0 <= i < |fields| => RenderLine(fields[i], p[fields[i]]))
  }

  predicate PlainName(name: string) {
    && name != "" && Trimmed(name)
    && ':' !in name && WIDE_COLON !in name && WIDE_OPEN !in name && '(' !in name
  }

  /** Names are made of lower-case letters and underscores. */
  predicate NameText(s: string) {
    s != "" && forall i :: 0 <= i < |s| ==> IsLower(s[i]) || s[i] == '_'
  }

  lemma NameTextIsPlain(s: string)
    requires NameText(s)
    ensures PlainName(s)
  {
  }

  lemma GateFieldNames(f: Field)
    requires f.Touchpoint? || f.SharedContract? || f.Reference? || f.Dependency? || f.Gate?
    ensures NameText(FieldName(f))
  {
  }

  lemma CheckFieldNames(f: Field)
    requires f.Surface? || f.JointAcceptance? || f.CheckedBeforePr?
    ensures NameText(FieldName(f))
  {
  }

  lemma MergeFieldName()
    ensures NameText(FieldName(CheckedBeforeMerge))
  {
  }

  lemma FieldNamesArePlain(f: Field)
    ensures PlainName(FieldName(f)) && NameText(FieldName(f))
  {
    hide PlainName, NameText, FieldName;
    if f.Touchpoint? || f.SharedContract? || f.Reference? || f.Dependency? || f.Gate? {
      GateFieldNames(f);
    } else if f.CheckedBeforeMerge? {
      MergeFieldName();
    } else {
      CheckFieldNames(f);
    }
    NameTextIsPlain(FieldName(f));
  }

  lemma FieldOfName(f: Field)
    ensures FieldOf(FieldName(f)) == SomeField(f)
  {
  }

  lemma KeyNameOfPlain(name: string)
    requires PlainName(name)
    ensures KeyName(name) == name
  {
    UpToAll(name, WIDE_OPEN);
    UpToAll(name, '(');
    StripOfTrimmed(name);
  }

  lemma EntryOfRendered(name: string, v: string)
    requires PlainName(name) && Trimmed(v)
    ensures var entry := name + ": " + v;
            && SplitEntry(entry).0 == name && Strip(SplitEntry(entry).1) == v
  {
    hide Strip, Trimmed;
    var entry := name + ": " + v;
    assert entry == name + [':'] + (" " + v);
    assert entry[|name|] == ':';
    UpToStopsAt(name, ':', " " + v);
    assert Strip(" " + v) == v by {
      StripPadded(" ", v, "");
      assert " " + v + "" == " " + v;
    }
  }

  lemma RenderedLineIsTrimmed(f: Field, v: string)
    requires PlainValue(v)
    ensures RenderLine(f, v) == "- " + (FieldName(f) + ": " + v)
    ensures Strip(RenderLine(f, v)) == RenderLine(f, v)
  {
    hide Strip, StripLeft, StripRight, FieldName;
    var line := RenderLine(f, v);
    assert line == "- " + (FieldName(f) + ": " + v);
    assert line[0] == '-' && line[|line| - 1] == v[|v| - 1];
    StripOfTrimmed(line);
  }

  /** A printed field line sets exactly its field. */
  lemma ParseRendered(state: Parser, f: Field, v: string)
    requires !state.closed && PlainValue(v)
    ensures ParseLine(state, RenderLine(f, v)) == Parser(state.payload[f := v], SomeField(f), false)
  {
    hide Strip, FieldName, FieldOf, KeyName, SplitEntry, RenderLine, PlainName;
    RenderedLineIsTrimmed(f, v);
    FieldNamesArePlain(f);
    EntryOfRendered(FieldName(f), v);
    KeyNameOfPlain(FieldName(f));
    FieldOfName(f);
    var line := RenderLine(f, v);
    assert StartsWith(line, "- ") && line[2..] == FieldName(f) + ": " + v;
  }

  predicate PlainPayload(p: Payload, fields: seq<Field>) {
    forall f :: f in fields ==> f in p && PlainValue(p[f])
  }

  function Restrict(p: Payload, fields: seq<Field>): Payload
    requires forall f :: f in fields ==> f in p
  {
    map f | f in fields :: p[f]
  }

  lemma {:induction false} ParseRenderedLines(p: Payload, fields: seq<Field>)
    requires PlainPayload(p, fields)
    ensures var end := ParseFrom(START, RenderLines(p, fields));
            end.payload == Restrict(p, fields) && !end.closed
  {
    hide ParseLine, RenderLine, PlainValue;
    if fields != [] {
      var n := |fields| - 1;
      var lines := RenderLines(p, fields);
      assert lines[..n] == RenderLines(p, fields[..n]);
      assert lines[n] == RenderLine(fields[n], p[fields[n]]);
      ParseRenderedLines(p, fields[..n]);
      ParseRendered(ParseFrom(START, lines[..n]), fields[n], p[fields[n]]);
      assert Restrict(p, fields) == Restrict(p, fields[..n])[fields[n] := p[fields[n]]];
    }
  }
}
