/** Dropping fenced code blocks from a document, and the metadata that is read
    from what remains. */
module Fences {
  import opened Text

  /** Whether one is in a fence, and the mark that opened it. */
  datatype State = Outside | Inside(mark: char, width: nat)

  function Repeats(s: string, c: char): (n: nat)
    ensures n <= |s| && (forall i :: 0 <= i < n ==> s[i] == c) && (n < |s| ==> s[n] != c)
  {
    if s != "" && s[0] == c then 1 + Repeats(s[1..], c) else 0
  }

  /** A line that opens a fence: at least three marks behind the indentation. */
  predicate Opens(line: string) {
    var s := StripLeft(line);
    s != "" && (s[0] == '`' || s[0] == '~') && Repeats(s, s[0]) >= 3
  }

  function FenceOf(line: string): State
    requires Opens(line)
  {
    var s := StripLeft(line);
    Inside(s[0], Repeats(s, s[0]))
  }

  /** A line that closes a fence: only its marks, and at least as many. */
  predicate Closes(line: string, fence: State)
    requires fence.Inside?
  {
    var s := Strip(line);
    s != "" && |s| >= fence.width && forall i :: 0 <= i < |s| ==> s[i] == fence.mark
  }

  function Next(state: State, line: string): State {
    match state
    case Outside => if Opens(line) then FenceOf(line) else Outside
    case Inside(_, _) => if Closes(line, state) then Outside else state
  }

  predicate Keeps(state: State, line: string) {
    state == Outside && !Opens(line)
  }

  function StateAfter(state: State, lines: seq<string>): State {
    if lines == [] then state else Next(StateAfter(state, lines[..|lines| - 1]), lines[|lines| - 1])
  }

  function Kept(state: State, lines: seq<string>): seq<string> {
    if lines == [] then []
    else
      var n := |lines| - 1;
      Kept(state, lines[..n]) + (if Keeps(StateAfter(state, lines[..n]), lines[n]) then [lines[n]] else [])
  }

  function StripFences(lines: seq<string>): seq<string> {
    Kept(Outside, lines)
  }

  method StripFencedCodeBlocks(lines: seq<string>) returns (cleaned: seq<string>)
    ensures cleaned == StripFences(lines)
  {
    hide Opens, Closes, FenceOf;
    cleaned := [];
    var inFence, fenceChar, fenceLen := false, ' ', 0;
    for i := 0 to |lines|
      invariant cleaned == Kept(Outside, lines[..i])
      invariant StateAfter(Outside, lines[..i]) == if inFence then Inside(fenceChar, fenceLen) else Outside
    {
      assert lines[..i + 1][..i] == lines[..i];
      if !inFence {
        if Opens(lines[i]) {
          OpenedFence(lines[i]);
          var fence := FenceOf(lines[i]);
          inFence, fenceChar, fenceLen := true, fence.mark, fence.width;
        } else {
          cleaned := cleaned + [lines[i]];
        }
      } else if Closes(lines[i], Inside(fenceChar, fenceLen)) {
        inFence := false;
      }
    }
    assert lines[..|lines|] == lines;
  }

  lemma OpenedFence(line: string)
    requires Opens(line)
    ensures FenceOf(line).Inside? && FenceOf(line).width >= 3
  {
  }

  // ---------------------------------------------------------------- documents

  /** A document by its parts: plain lines and fenced blocks. */
  datatype Part = Plain(line: string) | Block(opener: string, body: seq<string>, closer: string)

  predicate GoodPart(p: Part) {
    match p
    case Plain(line) => !Opens(line)
    case Block(opener, body, closer) =>
      && Opens(opener)
      && (forall i :: 0 <= i < |body| ==> !Closes(body[i], FenceOf(opener)))
      && Closes(closer, FenceOf(opener))
  }

  /** A document may end in a block that is never closed. */
  datatype Document = Document(parts: seq<Part>, rest: seq<string>)

  predicate GoodDocument(d: Document) {
    && (forall i :: 0 <= i < |d.parts| ==> GoodPart(d.parts[i]))
    && (d.rest != [] ==>
          Opens(d.rest[0]) && forall i :: 1 <= i < |d.rest| ==> !Closes(d.rest[i], FenceOf(d.rest[0])))
  }

  function PartLines(p: Part): seq<string> {
    match p
    case Plain(line) => [line]
    case Block(opener, body, closer) => [opener] + body + [closer]
  }

  function PartsLines(parts: seq<Part>): seq<string> {
    if parts == [] then [] else PartsLines(parts[..|parts| - 1]) + PartLines(parts[|parts| - 1])
  }

  function PlainLines(parts: seq<Part>): seq<string> {
    if parts == [] then []
    else PlainLines(parts[..|parts| - 1]) + (match parts[|parts| - 1] case Plain(line) => [line] case _ => [])
  }

  function LinesOf(d: Document): seq<string> {
    PartsLines(d.parts) + d.rest
  }

  lemma {:induction false} KeptOfConcat(state: State, a: seq<string>, b: seq<string>)
    ensures StateAfter(state, a + b) == StateAfter(StateAfter(state, a), b)
    ensures Kept(state, a + b) == Kept(state, a) + Kept(StateAfter(state, a), b)
  {
    hide Next, Keeps;
    if b == [] {
      assert a + b == a;
    } else {
      assert (a + b)[..|a + b| - 1] == a + b[..|b| - 1];
      KeptOfConcat(state, a, b[..|b| - 1]);
    }
  }

  lemma OneLine(state: State, line: string)
    ensures StateAfter(state, [line]) == Next(state, line)
    ensures Kept(state, [line]) == if Keeps(state, line) then [line] else []
  {
    hide Next, Keeps;
    assert [line][..0] == [];
  }

  lemma {:induction false} InsideNothingIsKept(fence: State, body: seq<string>)
    requires fence.Inside? && forall i :: 0 <= i < |body| ==> !Closes(body[i], fence)
    ensures StateAfter(fence, body) == fence && Kept(fence, body) == []
  {
    hide Closes, Opens;
    if body != [] {
      InsideNothingIsKept(fence, body[..|body| - 1]);
    }
  }

  lemma PartIsStripped(p: Part)
    requires GoodPart(p)
    ensures StateAfter(Outside, PartLines(p)) == Outside
    ensures Kept(Outside, PartLines(p)) == match p case Plain(line) => [line] case _ => []
  {
    hide Closes, Opens, FenceOf;
    match p
    case Plain(line) => OneLine(Outside, line);
    case Block(opener, body, closer) =>
      OpenedFence(opener);
      var fence := FenceOf(opener);
      OneLine(Outside, opener);
      InsideNothingIsKept(fence, body);
      OneLine(fence, closer);
      KeptOfConcat(Outside, [opener], body);
      KeptOfConcat(Outside, [opener] + body, [closer]);
  }

  lemma {:induction false} PartsAreStripped(parts: seq<Part>)
    requires forall i :: 0 <= i < |parts| ==> GoodPart(parts[i])
    ensures StateAfter(Outside, PartsLines(parts)) == Outside && Kept(Outside, PartsLines(parts)) == PlainLines(parts)
  {
    hide GoodPart, PartLines;
    if parts != [] {
      var n := |parts| - 1;
      PartsAreStripped(parts[..n]);
      PartIsStripped(parts[n]);
      KeptOfConcat(Outside, PartsLines(parts[..n]), PartLines(parts[n]));
    }
  }

  /** Stripping a document leaves exactly its plain lines, in order. */
  lemma StripKeepsPlainLines(d: Document)
    requires GoodDocument(d)
    ensures StripFences(LinesOf(d)) == PlainLines(d.parts)
  {
    hide GoodPart, Closes, Opens, FenceOf;
    PartsAreStripped(d.parts);
    KeptOfConcat(Outside, PartsLines(d.parts), d.rest);
    if d.rest != [] {
      OpenedFence(d.rest[0]);
      OneLine(Outside, d.rest[0]);
      assert d.rest == [d.rest[0]] + d.rest[1..];
      KeptOfConcat(Outside, [d.rest[0]], d.rest[1..]);
      InsideNothingIsKept(FenceOf(d.rest[0]), d.rest[1..]);
    }
  }

  /** Every text is such a document, in one step more for each line. */
  lemma {:induction false} EveryTextIsADocument(lines: seq<string>) returns (d: Document)
    ensures GoodDocument(d) && LinesOf(d) == lines
  {
    hide Closes, Opens, FenceOf;
    if lines == [] {
      d := Document([], []);
    } else {
      var n := |lines| - 1;
      var before := EveryTextIsADocument(lines[..n]);
      assert lines == lines[..n] + [lines[n]];
      d := AddLine(before, lines[n]);
    }
  }

  lemma AddLine(d: Document, line: string) returns (more: Document)
    requires GoodDocument(d)
    ensures GoodDocument(more) && LinesOf(more) == LinesOf(d) + [line]
  {
    hide Closes, Opens, FenceOf;
    if d.rest == [] {
      if Opens(line) {
        more := Document(d.parts, [line]);
      } else {
        more := Document(d.parts + [Plain(line)], []);
        assert more.parts[..|d.parts|] == d.parts;
      }
    } else {
      OpenedFence(d.rest[0]);
      if Closes(line, FenceOf(d.rest[0])) {
        var p := Block(d.rest[0], d.rest[1..], line);
        more := Document(d.parts + [p], []);
        assert more.parts[..|d.parts|] == d.parts;
        assert d.rest == [d.rest[0]] + d.rest[1..];
      } else {
        more := Document(d.parts, d.rest + [line]);
      }
    }
  }

  lemma {:induction false} NothingOpensIn(lines: seq<string>)
    requires forall i :: 0 <= i < |lines| ==> !Opens(lines[i])
    ensures StateAfter(Outside, lines) == Outside && Kept(Outside, lines) == lines
  {
    hide Opens, Closes, FenceOf;
    if lines != [] {
      var n := |lines| - 1;
      NothingOpensIn(lines[..n]);
      assert Next(Outside, lines[n]) == Outside && Keeps(Outside, lines[n]);
      assert lines == lines[..n] + [lines[n]];
    }
  }

  lemma {:induction false} KeptLinesDoNotOpen(state: State, lines: seq<string>)
    ensures forall i :: 0 <= i < |Kept(state, lines)| ==> !Opens(Kept(state, lines)[i])
  {
    hide Opens, Next;
    if lines != [] {
      KeptLinesDoNotOpen(state, lines[..|lines| - 1]);
    }
  }

  /** Stripping changes a text exactly when some line opens a fence outside all
      others, that is, when it has an opening line at all; so it is idempotent. */
  lemma StripFixesExactlyUnfenced(lines: seq<string>)
    ensures StripFences(lines) == lines <==> forall i :: 0 <= i < |lines| ==> !Opens(lines[i])
    ensures StripFences(StripFences(lines)) == StripFences(lines)
  {
    hide Opens, Kept;
    KeptLinesDoNotOpen(Outside, lines);
    NothingOpensIn(StripFences(lines));
    if forall i :: 0 <= i < |lines| ==> !Opens(lines[i]) {
      NothingOpensIn(lines);
    }
  }
}
