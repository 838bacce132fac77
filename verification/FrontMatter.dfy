/** The front matter of the workflow contract: an indentation parser over a stack
    of open dictionaries, and the notation it reads back. */
module FrontMatter {
  import opened Text

  datatype Value = Text(s: string) | Number(n: nat) | Nested(entries: Entries)

  /** A dictionary in insertion order. */
  datatype Entries = Empty | Entry(key: string, value: Value, rest: Entries)

  datatype Error = NoOpening | NoClosing | OddIndent | NoColon | EmptyKey

  datatype Result<T> = Ok(value: T) | Err(error: Error)

  /** Assignment to a key keeps its place, or adds it at the end. */
  function Put(es: Entries, key: string, v: Value): Entries {
    match es
    case Empty => Entry(key, v, Empty)
    case Entry(k, w, rest) => if k == key then Entry(k, v, rest) else Entry(k, w, Put(rest, key, v))
  }

  function Keys(es: Entries): set<string> {
    match es
    case Empty => {}
    case Entry(k, _, rest) => {k} + Keys(rest)
  }

  function Append(a: Entries, b: Entries): Entries {
    match a
    case Empty => b
    case Entry(k, v, rest) => Entry(k, v, Append(rest, b))
  }

  // ---------------------------------------------------------------- the markers

  const OPENING := "---\n"
  const MARKER := "\n---\n"

  function FindMarker(s: string): (i: nat)
    ensures i <= |s| && (i < |s| ==> MARKER <= s[i..])
  {
    if s == "" || MARKER <= s then 0 else 1 + FindMarker(s[1..])
  }

  function SplitFrontMatter(text: string): Result<(string, string)> {
    if !(OPENING <= text) then Err(NoOpening)
    else
      var s := text[|OPENING|..];
      var end := FindMarker(s);
      if end == |s| then Err(NoClosing) else Ok((s[..end], s[end + |MARKER|..]))
  }

  // ----------------------------------------------------------------- the lines

  function SplitLines(text: string): seq<string>
    decreases |text|
  {
    if text == "" then [] else [UpTo(text, '\n')] + SplitLines(Behind(text, '\n'))
  }

  predicate AllDigits(s: string) {
    s != "" && forall i :: 0 <= i < |s| ==> IsDigit(s[i])
  }

  predicate Quoted(s: string, quote: char) {
    s != "" && s[0] == quote && s[|s| - 1] == quote
  }

  function ParseScalar(s: string): Value {
    if AllDigits(s) then Number(Text.Number(s))
    else if Quoted(s, '"') || Quoted(s, '\'') then Text(if |s| == 1 then "" else s[1..|s| - 1])
    else Text(s)
  }

  function Blanks(line: string): (n: nat)
    ensures n <= |line|
  {
    if line != "" && line[0] == ' ' then 1 + Blanks(line[1..]) else 0
  }

  datatype Line = BlankLine | BadLine(error: Error) | Item(indent: nat, key: string, raw: string)

  function ReadLine(line: string): Line {
    var s := Strip(line);
    if s == "" then BlankLine
    else if Blanks(line) % 2 != 0 then BadLine(OddIndent)
    else if ':' !in s then BadLine(NoColon)
    else
      var key := Strip(UpTo(s, ':'));
      if key == "" then BadLine(EmptyKey) else Item(Blanks(line), key, Strip(Behind(s, ':')))
  }

  // ----------------------------------------------------------------- the stack

  /** An open dictionary, its indentation and its key in the one below. */
  datatype Frame = Frame(indent: int, key: string, entries: Entries)

  type Stack = seq<Frame>

  const BOTTOM := [Frame(-1, "", Empty)]

  function Last(stack: Stack): Frame
    requires stack != []
  {
    stack[|stack| - 1]
  }

  function Assign(stack: Stack, key: string, v: Value): (r: Stack)
    requires stack != []
    ensures |r| == |stack|
  {
    var top := Last(stack);
    stack[..|stack| - 1] + [top.(entries := Put(top.entries, key, v))]
  }

  /** Closing the top dictionary leaves it in the one below. */
  function Pop(stack: Stack): (r: Stack)
    requires |stack| > 1
    ensures |r| == |stack| - 1
  {
    Assign(stack[..|stack| - 1], Last(stack).key, Nested(Last(stack).entries))
  }

  function PopTo(stack: Stack, indent: int): (r: Stack)
    requires stack != []
    ensures r != [] && |r| <= |stack|
    decreases |stack|
  {
    if |stack| > 1 && indent <= Last(stack).indent then PopTo(Pop(stack), indent) else stack
  }

  function Place(stack: Stack, item: Line): (r: Stack)
    requires stack != [] && item.Item?
    ensures r != []
  {
    var open := PopTo(stack, item.indent);
    if item.raw == "" then Assign(open, item.key, Nested(Empty)) + [Frame(item.indent, item.key, Empty)]
    else Assign(open, item.key, ParseScalar(item.raw))
  }

  function ParseLines(stack: Stack, lines: seq<string>): (r: Result<Stack>)
    requires stack != []
    ensures r.Ok? ==> r.value != []
    decreases |lines|
  {
    if lines == [] then Ok(stack)
    else
      match ReadLine(lines[0])
      case BlankLine => ParseLines(stack, lines[1..])
      case BadLine(error) => Err(error)
      case Item(indent, key, raw) => ParseLines(Place(stack, Item(indent, key, raw)), lines[1..])
  }

  function ParseFrontMatter(text: string): Result<Entries> {
    match ParseLines(BOTTOM, SplitLines(text))
    case Err(error) => Err(error)
    case Ok(stack) => Ok(PopTo(stack, 0)[0].entries)
  }

  /** Indentations grow strictly from the bottom of the stack. */
  predicate Increasing(stack: Stack) {
    && stack != [] && stack[0].indent == -1
    && forall i, j :: 0 <= i < j < |stack| ==> stack[i].indent < stack[j].indent
  }

  lemma {:induction false} PopToKeepsIncreasing(stack: Stack, indent: nat)
    requires Increasing(stack)
    ensures Increasing(PopTo(stack, indent)) && Last(PopTo(stack, indent)).indent < indent
    decreases |stack|
  {
    if |stack| > 1 && indent <= Last(stack).indent {
      PopToKeepsIncreasing(Pop(stack), indent);
    }
  }

  lemma PlaceKeepsIncreasing(stack: Stack, item: Line)
    requires Increasing(stack) && item.Item?
    ensures Increasing(Place(stack, item))
  {
    PopToKeepsIncreasing(stack, item.indent);
  }

  /** The stack keeps growing indentations over a whole parse. */
  lemma {:induction false} StackStaysIncreasing(stack: Stack, lines: seq<string>)
    requires stack != [] && Increasing(stack)
    ensures var r := ParseLines(stack, lines); r.Ok? ==> Increasing(r.value)
    decreases |lines|
  {
    hide ReadLine, Place, Increasing;
    if lines != [] {
      match ReadLine(lines[0])
      case BlankLine => StackStaysIncreasing(stack, lines[1..]);
      case BadLine(_) =>
      case Item(indent, key, raw) =>
        PlaceKeepsIncreasing(stack, Item(indent, key, raw));
        StackStaysIncreasing(Place(stack, Item(indent, key, raw)), lines[1..]);
    }
  }

  // --------------------------------------------------------------- the printer

  function Spaces(n: nat): (r: string)
    ensures |r| == n && forall i :: 0 <= i < n ==> r[i] == ' '
  {
    seq(n, i => ' ')
  }

  function PrintScalar(v: Value): string
    requires !v.Nested?
  {
    match v
    case Text(s) => "\"" + s + "\""
    case Number(n) => Decimal(n)
  }

  function PrintLine(depth: nat, key: string, v: Value): string {
    Spaces(2 * depth) + (key + ([':'] + (if v.Nested? then "" else " " + PrintScalar(v))))
  }

  function Print(es: Entries, depth: nat): seq<string>
    decreases es
  {
    match es
    case Empty => []
    case Entry(key, v, rest) =>
      [PrintLine(depth, key, v)]
      + (match v case Nested(sub) => Print(sub, depth + 1) case _ => [])
      + Print(rest, depth)
  }

  function JoinLines(lines: seq<string>): string {
    if lines == [] then "" else if |lines| == 1 then lines[0] else lines[0] + ['\n'] + JoinLines(lines[1..])
  }

  function Wrap(frontMatter: string, body: string): string {
    OPENING + (frontMatter + (MARKER + body))
  }

  // -------------------------------------------------------------- well-formed

  predicate GoodKey(key: string) {
    key != "" && Trimmed(key) && ':' !in key && OneLine(key)
  }

  predicate GoodValue(v: Value)
    decreases v
  {
    match v
    case Text(s) => OneLine(s)
    case Number(_) => true
    case Nested(es) => GoodEntries(es)
  }

  /** Distinct well-formed keys and printable values at every level. */
  predicate GoodEntries(es: Entries)
    decreases es
  {
    match es
    case Empty => true
    case Entry(key, v, rest) => GoodKey(key) && GoodValue(v) && key !in Keys(rest) && GoodEntries(rest)
  }

  // -------------------------------------------------------------- reading a line

  lemma {:induction false} BlanksInFront(n: nat, s: string)
    requires s != "" && s[0] != ' '
    ensures Blanks(Spaces(n) + s) == n
  {
    var t := Spaces(n) + s;
    if n == 0 {
      assert t == s;
    } else {
      assert t[1..] == Spaces(n - 1) + s;
      BlanksInFront(n - 1, s);
    }
  }

  lemma ScalarIsReadBack(v: Value)
    requires !v.Nested?
    ensures PrintScalar(v) != "" && Trimmed(PrintScalar(v)) && ParseScalar(PrintScalar(v)) == v
  {
    var t := PrintScalar(v);
    match v
    case Text(s) =>
      assert t[0] == '"' && t[|t| - 1] == '"';
      assert !IsDigit(t[0]);
      assert t[1..|t| - 1] == s;
    case Number(n) =>
      assert AllDigits(t);
      NumberOfDecimal(n);
  }

  lemma LineShape(depth: nat, key: string, scalar: string, tail: string)
    requires GoodKey(key) && Trimmed(scalar) && tail == if scalar == "" then "" else " " + scalar
    ensures var s := key + ([':'] + tail);
            && Strip(Spaces(2 * depth) + s) == s && s != "" && Blanks(Spaces(2 * depth) + s) == 2 * depth
  {
    hide Strip, Blanks, Trimmed, GoodKey;
    var s := key + ([':'] + tail);
    LineIsTrimmed(key, scalar, tail);
    KeyStartsDark(key);
    assert s[0] == key[0];
    BlanksInFront(2 * depth, s);
    assert Spaces(2 * depth) + s + "" == Spaces(2 * depth) + s;
    StripPadded(Spaces(2 * depth), s, "");
  }

  lemma LineParts(key: string, scalar: string, tail: string)
    requires GoodKey(key) && Trimmed(scalar) && tail == if scalar == "" then "" else " " + scalar
    ensures var s := key + ([':'] + tail);
            && ':' in s && UpTo(s, ':') == key && Strip(key) == key && Strip(Behind(s, ':')) == scalar
  {
    hide Strip, Trimmed;
    var s := key + ([':'] + tail);
    assert s[|key|] == ':';
    assert s == key + [':'] + tail;
    UpToStopsAt(key, ':', tail);
    StripOfTrimmed(key);
    TailIsStripped(scalar, tail);
  }

  lemma LineIsReadBack(depth: nat, key: string, v: Value)
    requires GoodKey(key)
    ensures ReadLine(PrintLine(depth, key, v)) == Item(2 * depth, key, if v.Nested? then "" else PrintScalar(v))
  {
    hide Strip, PrintScalar, Blanks, Trimmed, UpTo, Behind, Spaces;
    var scalar := if v.Nested? then "" else PrintScalar(v);
    if !v.Nested? {
      ScalarIsReadBack(v);
    }
    var tail := if v.Nested? then "" else " " + scalar;
    assert Trimmed("") by { NothingIsTrimmed(); }
    LineShape(depth, key, scalar, tail);
    LineParts(key, scalar, tail);
    KeyStartsDark(key);
  }

  lemma NothingIsTrimmed()
    ensures Trimmed("")
  {
  }

  lemma KeyStartsDark(key: string)
    requires GoodKey(key)
    ensures key != "" && !IsSpace(key[0])
  {
  }

  lemma LineIsTrimmed(key: string, scalar: string, tail: string)
    requires GoodKey(key) && Trimmed(scalar) && tail == if scalar == "" then "" else " " + scalar
    ensures Trimmed(key + ([':'] + tail))
  {
    var s := key + ([':'] + tail);
    assert s[0] == key[0];
    assert s[|s| - 1] == if scalar == "" then ':' else scalar[|scalar| - 1];
  }

  lemma TailIsStripped(scalar: string, tail: string)
    requires Trimmed(scalar) && tail == if scalar == "" then "" else " " + scalar
    ensures Strip(tail) == scalar
  {
    hide Strip, StripLeft, StripRight, Trimmed;
    if scalar == "" {
      StripOfTrimmed("");
    } else {
      StripPadded(" ", scalar, "");
      assert " " + scalar + "" == tail;
    }
  }

  // ---------------------------------------------------------- reading all lines

  lemma {:induction false} ParseConcat(stack: Stack, a: seq<string>, b: seq<string>)
    requires stack != []
    ensures ParseLines(stack, a + b) ==
            (match ParseLines(stack, a) case Ok(s) => ParseLines(s, b) case Err(e) => Err(e))
    decreases |a|
  {
    hide ReadLine, Place;
    if a == [] {
      assert a + b == b;
    } else {
      assert (a + b)[0] == a[0] && (a + b)[1..] == a[1..] + b;
      match ReadLine(a[0])
      case BlankLine => ParseConcat(stack, a[1..], b);
      case BadLine(_) =>
      case Item(indent, key, raw) => ParseConcat(Place(stack, Item(indent, key, raw)), a[1..], b);
    }
  }

  lemma {:induction false} PutNew(es: Entries, key: string, v: Value)
    requires key !in Keys(es)
    ensures Put(es, key, v) == Append(es, Entry(key, v, Empty)) && Keys(Put(es, key, v)) == Keys(es) + {key}
  {
    if es.Entry? {
      PutNew(es.rest, key, v);
    }
  }

  lemma {:induction false} PutAgain(es: Entries, key: string, v: Value, w: Value)
    ensures Put(Put(es, key, v), key, w) == Put(es, key, w)
  {
    if es.Entry? {
      PutAgain(es.rest, key, v, w);
    }
  }

  lemma {:induction false} AppendEntry(es: Entries, key: string, v: Value, rest: Entries)
    ensures Append(Append(es, Entry(key, v, Empty)), rest) == Append(es, Entry(key, v, rest))
  {
    if es.Entry? {
      AppendEntry(es.rest, key, v, rest);
    }
  }

  lemma {:induction false} AppendNothing(es: Entries)
    ensures Append(es, Empty) == es
  {
    if es.Entry? {
      AppendNothing(es.rest);
    }
  }

  function WithTop(stack: Stack, es: Entries): Stack
    requires stack != []
  {
    stack[..|stack| - 1] + [Last(stack).(entries := es)]
  }

  lemma {:induction false} PopTwice(stack: Stack, a: int, b: int)
    requires stack != [] && b <= a
    ensures PopTo(PopTo(stack, a), b) == PopTo(stack, b)
    decreases |stack|
  {
    hide Pop;
    if |stack| > 1 && a <= Last(stack).indent {
      PopTwice(Pop(stack), a, b);
    }
  }

  lemma AssignTwice(stack: Stack, key: string, v: Value, w: Value)
    requires stack != []
    ensures Assign(Assign(stack, key, v), key, w) == Assign(stack, key, w)
  {
    PutAgain(Last(stack).entries, key, v, w);
  }

  lemma FirstLine(es: Entries, depth: nat)
    requires es.Entry? && GoodKey(es.key)
    ensures Print(es, depth) != []
    ensures var line := ReadLine(Print(es, depth)[0]); line.Item? && line.indent == 2 * depth
  {
    hide ReadLine, PrintLine, GoodKey;
    LineIsReadBack(depth, es.key, es.value);
  }

  /** Lines of one level do not notice dictionaries that are left open above. */
  lemma LevelClosesDeeper(stack: Stack, lines: seq<string>, indent: int)
    requires stack != [] && lines != []
    requires ReadLine(lines[0]).Item? && ReadLine(lines[0]).indent == indent
    ensures ParseLines(stack, lines) == ParseLines(PopTo(stack, indent), lines)
  {
    hide ReadLine, PopTo, Assign;
    PopTwice(stack, indent, indent);
  }

  /** A nested dictionary is opened below its key and closed at the next line of
      its own level. */
  lemma NestedIsClosed(stack: Stack, key: string, sub: Entries, deeper: Stack, depth: nat)
    requires stack != [] && Last(stack).indent < 2 * depth && deeper != []
    requires PopTo(deeper, 2 * depth + 2) == Assign(stack, key, Nested(Empty)) + [Frame(2 * depth, key, sub)]
    ensures PopTo(deeper, 2 * depth) == Assign(stack, key, Nested(sub))
  {
    hide Put;
    PopTwice(deeper, 2 * depth + 2, 2 * depth);
    var below := Assign(stack, key, Nested(Empty));
    var open := below + [Frame(2 * depth, key, sub)];
    assert open[..|open| - 1] == below;
    AssignTwice(stack, key, Nested(Empty), Nested(sub));
    assert Pop(open) == Assign(stack, key, Nested(sub));
  }

  lemma AlreadyOpen(stack: Stack, indent: int)
    requires stack != [] && Last(stack).indent < indent
    ensures PopTo(stack, indent) == stack
  {
  }

  lemma AssignedTop(stack: Stack, key: string, v: Value, rest: Entries)
    requires stack != [] && key !in Keys(Last(stack).entries)
    ensures var next, es := Assign(stack, key, v), Last(stack).entries;
            && Last(next).indent == Last(stack).indent
            && Keys(Last(next).entries) == Keys(es) + {key}
            && WithTop(next, Append(Last(next).entries, rest)) == WithTop(stack, Append(es, Entry(key, v, rest)))
  {
    PutNew(Last(stack).entries, key, v);
    AppendEntry(Last(stack).entries, key, v, rest);
  }

  lemma TopIsItself(stack: Stack)
    requires stack != []
    ensures WithTop(stack, Append(Last(stack).entries, Empty)) == stack
  {
    AppendNothing(Last(stack).entries);
  }

  /** The entry itself: the lines of one key and its value. */
  function PrintEntry(depth: nat, key: string, v: Value): seq<string>
    decreases v
  {
    [PrintLine(depth, key, v)] + (match v case Nested(sub) => Print(sub, depth + 1) case _ => [])
  }

  lemma ScalarEntry(stack: Stack, key: string, v: Value, depth: nat)
    requires stack != [] && Last(stack).indent < 2 * depth && GoodKey(key) && !v.Nested?
    ensures ParseLines(stack, PrintEntry(depth, key, v)) == Ok(Assign(stack, key, v))
    ensures PopTo(Assign(stack, key, v), 2 * depth) == Assign(stack, key, v)
  {
    hide ReadLine, PrintLine, PopTo, Put, GoodKey, PrintScalar, ParseScalar;
    LineIsReadBack(depth, key, v);
    ScalarIsReadBack(v);
    AlreadyOpen(stack, 2 * depth);
    AlreadyOpen(Assign(stack, key, v), 2 * depth);
    assert PrintEntry(depth, key, v) == [PrintLine(depth, key, v)];
  }

  lemma NestedEntry(stack: Stack, key: string, sub: Entries, depth: nat, inner: Result<Stack>)
    requires stack != [] && Last(stack).indent < 2 * depth && GoodKey(key)
    requires var open := Assign(stack, key, Nested(Empty)) + [Frame(2 * depth, key, Empty)];
             && inner == ParseLines(open, Print(sub, depth + 1)) && inner.Ok?
             && PopTo(inner.value, 2 * depth + 2) == WithTop(open, Append(Empty, sub))
    ensures ParseLines(stack, PrintEntry(depth, key, Nested(sub))) == inner
    ensures PopTo(inner.value, 2 * depth) == Assign(stack, key, Nested(sub))
  {
    hide ReadLine, PrintLine, PopTo, GoodKey, Assign, Print;
    var v := Nested(sub);
    LineIsReadBack(depth, key, v);
    AlreadyOpen(stack, 2 * depth);
    var open := Assign(stack, key, Nested(Empty)) + [Frame(2 * depth, key, Empty)];
    assert PrintEntry(depth, key, v)[1..] == Print(sub, depth + 1);
    assert WithTop(open, sub) == Assign(stack, key, Nested(Empty)) + [Frame(2 * depth, key, sub)];
    NestedIsClosed(stack, key, sub, inner.value, depth);
  }

  lemma EntryThenRest(stack: Stack, entry: seq<string>, deeper: Stack, next: Stack, rest: Entries, depth: nat)
    requires stack != [] && deeper != [] && next != [] && GoodEntries(rest)
    requires ParseLines(stack, entry) == Ok(deeper) && PopTo(deeper, 2 * depth) == next
    ensures ParseLines(stack, entry + Print(rest, depth)) ==
            if rest.Empty? then Ok(deeper) else ParseLines(next, Print(rest, depth))
  {
    hide ReadLine, PrintLine, PopTo, GoodKey, Print, ParseLines;
    ParseConcat(stack, entry, Print(rest, depth));
    if rest.Empty? {
      NothingToParse(deeper, depth);
    } else {
      FirstLine(rest, depth);
      LevelClosesDeeper(deeper, Print(rest, depth), 2 * depth);
    }
  }

  lemma NothingToParse(stack: Stack, depth: nat)
    requires stack != []
    ensures ParseLines(stack, Print(Empty, depth)) == Ok(stack)
  {
  }

  /** Parsing the printed lines of a level adds exactly its entries to the
      dictionary that is open there. */
  lemma {:induction false} PrintedIsParsed(stack: Stack, es: Entries, depth: nat)
    requires stack != [] && Last(stack).indent < 2 * depth
    requires GoodEntries(es) && Keys(es) !! Keys(Last(stack).entries)
    ensures var r := ParseLines(stack, Print(es, depth));
            r.Ok? && PopTo(r.value, 2 * depth) == WithTop(stack, Append(Last(stack).entries, es))
    decreases es
  {
    hide ReadLine, PrintLine, Assign, PopTo, GoodKey, Append, Put, WithTop, ParseLines;
    match es
    case Empty =>
      NothingToParse(stack, depth);
      AlreadyOpen(stack, 2 * depth);
      TopIsItself(stack);
    case Entry(key, v, rest) =>
      assert Print(es, depth) == PrintEntry(depth, key, v) + Print(rest, depth);
      var next := Assign(stack, key, v);
      AssignedTop(stack, key, v, rest);
      PrintedIsParsed(next, rest, depth);
      if v.Nested? {
        OpenedTop(stack, key, depth);
        var open := Assign(stack, key, Nested(Empty)) + [Frame(2 * depth, key, Empty)];
        PrintedIsParsed(open, v.entries, depth + 1);
        var inner := ParseLines(open, Print(v.entries, depth + 1));
        NestedEntry(stack, key, v.entries, depth, inner);
        EntryThenRest(stack, PrintEntry(depth, key, v), inner.value, next, rest, depth);
      } else {
        ScalarEntry(stack, key, v, depth);
        EntryThenRest(stack, PrintEntry(depth, key, v), next, next, rest, depth);
      }
      if rest.Empty? {
        TopIsItself(next);
      }
  }

  lemma OpenedTop(stack: Stack, key: string, depth: nat)
    requires stack != []
    ensures var open := Assign(stack, key, Nested(Empty)) + [Frame(2 * depth, key, Empty)];
            Last(open) == Frame(2 * depth, key, Empty) && Keys(Last(open).entries) == {}
  {
  }

  // ------------------------------------------------------------- the whole text

  predicate GoodLine(line: string) {
    ':' in line && '\n' !in line
  }

  predicate GoodLines(lines: seq<string>) {
    forall i :: 0 <= i < |lines| ==> GoodLine(lines[i])
  }

  lemma ScalarHasNoBreak(v: Value)
    requires GoodValue(v)
    ensures !v.Nested? ==> '\n' !in PrintScalar(v)
  {
  }

  lemma PrintedLineIsGood(depth: nat, key: string, v: Value)
    requires GoodKey(key) && GoodValue(v)
    ensures GoodLine(PrintLine(depth, key, v))
  {
    hide PrintScalar, Trimmed;
    var tail := if v.Nested? then "" else " " + PrintScalar(v);
    ScalarHasNoBreak(v);
    var line := PrintLine(depth, key, v);
    assert line == Spaces(2 * depth) + key + [':'] + tail;
    assert ':' in [':'] + tail;
  }

  lemma {:induction false} PrintedLinesAreGood(es: Entries, depth: nat)
    requires GoodEntries(es)
    ensures GoodLines(Print(es, depth))
    decreases es
  {
    hide GoodLine, PrintLine, GoodKey;
    if es.Entry? {
      PrintedLineIsGood(depth, es.key, es.value);
      if es.value.Nested? {
        PrintedLinesAreGood(es.value.entries, depth + 1);
      }
      PrintedLinesAreGood(es.rest, depth);
    }
  }

  lemma {:induction false} JoinedLinesAreSplit(lines: seq<string>)
    requires GoodLines(lines)
    ensures SplitLines(JoinLines(lines)) == lines
  {
    if |lines| == 1 {
      UpToAll(lines[0], '\n');
      assert lines == [lines[0]];
    } else if |lines| > 1 {
      UpToStopsAt(lines[0], '\n', JoinLines(lines[1..]));
      assert JoinLines(lines) == lines[0] + ['\n'] + JoinLines(lines[1..]);
      JoinedLinesAreSplit(lines[1..]);
    }
  }

  lemma MarkerInFront(rest: string)
    ensures MARKER <= ['\n'] + rest <==> OPENING <= rest
  {
    var s := ['\n'] + rest;
    assert s[1..] == rest && MARKER[1..] == OPENING && MARKER == ['\n'] + OPENING;
    if OPENING <= rest {
      assert rest == OPENING + rest[4..];
      assert s == MARKER + rest[4..];
    }
    if MARKER <= s {
      assert s == MARKER + s[5..];
      assert rest == OPENING + s[5..];
    }
  }

  lemma {:induction false} MarkerBehindLine(line: string, rest: string)
    requires '\n' !in line
    ensures FindMarker(line + ['\n'] + rest) == if OPENING <= rest then |line| else |line| + 1 + FindMarker(rest)
  {
    var s := line + ['\n'] + rest;
    if line == "" {
      assert s == ['\n'] + rest && s[1..] == rest;
      MarkerInFront(rest);
    } else {
      assert s[1..] == line[1..] + ['\n'] + rest && s[0] == line[0];
      MarkerBehindLine(line[1..], rest);
    }
  }

  /** A line with a colon is not taken for the marker. */
  lemma GoodLineIsNoMarker(line: string, more: string)
    requires GoodLine(line)
    ensures !(OPENING <= line + ['\n'] + more)
  {
    var rest := line + ['\n'] + more;
    var k :| 0 <= k < |line| && line[k] == ':';
    var i := if k < 4 then k else 3;
    assert rest[i] == line[i] && line[i] != '\n';
    assert rest[i] != OPENING[i];
  }

  lemma JoinedStart(lines: seq<string>, tail: string)
    requires lines != []
    ensures exists more :: JoinLines(lines) + (MARKER + tail) == lines[0] + ['\n'] + more
  {
    if |lines| == 1 {
      assert JoinLines(lines) + (MARKER + tail) == lines[0] + ['\n'] + (OPENING + tail);
    } else {
      assert JoinLines(lines) + (MARKER + tail) == lines[0] + ['\n'] + (JoinLines(lines[1..]) + (MARKER + tail));
    }
  }

  lemma {:induction false} MarkerBehindLines(lines: seq<string>, body: string)
    requires GoodLines(lines)
    ensures FindMarker(JoinLines(lines) + (MARKER + body)) == |JoinLines(lines)|
  {
    hide GoodLine, FindMarker;
    var s := JoinLines(lines) + (MARKER + body);
    if lines == [] {
      assert s == "" + ['\n'] + (OPENING + body);
      MarkerBehindLine("", OPENING + body);
    } else if |lines| == 1 {
      assert s == lines[0] + ['\n'] + (OPENING + body);
      GoodLineHasNoBreak(lines[0]);
      MarkerBehindLine(lines[0], OPENING + body);
    } else {
      var rest := JoinLines(lines[1..]) + (MARKER + body);
      assert s == lines[0] + ['\n'] + rest;
      JoinedStart(lines[1..], body);
      var more :| rest == lines[1] + ['\n'] + more;
      GoodLineIsNoMarker(lines[1], more);
      GoodLineHasNoBreak(lines[0]);
      MarkerBehindLine(lines[0], rest);
      MarkerBehindLines(lines[1..], body);
    }
  }

  lemma GoodLineHasNoBreak(line: string)
    requires GoodLine(line)
    ensures '\n' !in line
  {
  }

  function PrintText(es: Entries): string {
    JoinLines(Print(es, 0))
  }

  /** Printing a nested mapping, wrapping it with a body in markers, splitting and
      parsing yields the same mapping and body. */
  lemma RoundTrip(es: Entries, body: string)
    requires GoodEntries(es)
    ensures SplitFrontMatter(Wrap(PrintText(es), body)) == Ok((PrintText(es), body))
    ensures ParseFrontMatter(PrintText(es)) == Ok(es)
  {
    hide Print, ParseLines, PopTo, FindMarker, JoinLines, SplitLines, GoodLine, Append;
    var text := PrintText(es);
    PrintedLinesAreGood(es, 0);
    MarkerBehindLines(Print(es, 0), body);
    assert Wrap(text, body)[|OPENING|..] == text + (MARKER + body);
    assert (text + (MARKER + body))[|text| + |MARKER|..] == body;
    JoinedLinesAreSplit(Print(es, 0));
    PrintedIsParsed(BOTTOM, es, 0);
    assert Append(Empty, es) == es by { AppendToNothing(es); }
  }

  lemma AppendToNothing(es: Entries)
    ensures Append(Empty, es) == es
  {
  }
}
