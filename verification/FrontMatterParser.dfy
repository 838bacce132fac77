/** The front matter parser as it works: a stack of dictionaries, each of them
    stored in the one below, filled in place. */
module FrontMatterParser {
  import opened FrontMatter

  datatype Cell = Scalar(v: Value) | Child(d: Dictionary)

  datatype Slots = NoSlot | Slot(key: string, cell: Cell, rest: Slots)

  class Dictionary {
    var slots: Slots

    constructor ()
      ensures slots == NoSlot
    {
      slots := NoSlot;
    }

    /** `d[key] = cell` */
    method Set(key: string, cell: Cell)
      modifies this
      ensures slots == PutSlot(old(slots), key, cell)
    {
      slots := PutSlot(slots, key, cell);
    }
  }

  function PutSlot(slots: Slots, key: string, cell: Cell): Slots {
    match slots
    case NoSlot => Slot(key, cell, NoSlot)
    case Slot(k, c, rest) => if k == key then Slot(k, cell, rest) else Slot(k, c, PutSlot(rest, key, cell))
  }

  function SlotKeys(slots: Slots): set<string> {
    match slots
    case NoSlot => {}
    case Slot(k, _, rest) => {k} + SlotKeys(rest)
  }

  predicate DistinctKeys(slots: Slots) {
    match slots
    case NoSlot => true
    case Slot(k, _, rest) => k !in SlotKeys(rest) && DistinctKeys(rest)
  }

  /** The slots hold the entries: scalars directly, nested ones in closed
      dictionaries; the one that is still open counts as empty. */
  ghost predicate Shows(slots: Slots, es: Entries, open: Dictionary?, closed: set<Dictionary>)
    reads closed
    decreases es
  {
    match slots
    case NoSlot => es == Empty
    case Slot(k, cell, rest) =>
      && es.Entry? && es.key == k && Shows(rest, es.rest, open, closed)
      && match cell
         case Scalar(v) => es.value == v && !v.Nested?
         case Child(d) =>
           && es.value.Nested?
           && if d == open then es.value.entries == Empty
              else d in closed && Shows(d.slots, es.value.entries, null, closed)
  }

  ghost predicate Mentions(slots: Slots, d: Dictionary) {
    slots.Slot? && (slots.cell == Child(d) || Mentions(slots.rest, d))
  }

  /** The dictionary is stored under this key and nowhere else. */
  ghost predicate Stores(slots: Slots, key: string, d: Dictionary) {
    && slots.Slot?
    && if slots.key == key then slots.cell == Child(d) && !Mentions(slots.rest, d)
       else slots.cell != Child(d) && Stores(slots.rest, key, d)
  }

  datatype Open = Open(indent: int, d: Dictionary)

  /** Each dictionary below the top holds what its frame says, and the next one,
      still open, under that one's key. */
  ghost predicate Below(stack: seq<Open>, frames: Stack, closed: set<Dictionary>)
    reads set i | 0 <= i < |stack| - 1 :: stack[i].d, closed
  {
    && |stack| == |frames| && stack != []
    && (forall i :: 0 <= i < |stack| ==> stack[i].indent == frames[i].indent && stack[i].d !in closed)
    && (forall i, j :: 0 <= i < j < |stack| ==> stack[i].d != stack[j].d)
    && (forall i :: 0 <= i < |stack| - 1 ==>
          && DistinctKeys(stack[i].d.slots) && Shows(stack[i].d.slots, frames[i].entries, stack[i + 1].d, closed)
          && Stores(stack[i].d.slots, frames[i + 1].key, stack[i + 1].d))
  }

  /** Each dictionary on the stack is nested in the one below, and together they
      hold what the frames say. */
  ghost predicate Linked(stack: seq<Open>, frames: Stack, closed: set<Dictionary>)
    reads set o | o in stack :: o.d, closed
  {
    && Below(stack, frames, closed)
    && var n := |stack| - 1;
       DistinctKeys(stack[n].d.slots) && Shows(stack[n].d.slots, frames[n].entries, null, closed)
  }

  // ------------------------------------------------------------------ the steps

  lemma {:induction false} ShowsGrows(slots: Slots, es: Entries, open: Dictionary?, closed: set<Dictionary>,
                                      more: set<Dictionary>)
    requires Shows(slots, es, open, closed) && closed <= more
    ensures Shows(slots, es, open, more)
    decreases es
  {
    if slots.Slot? {
      ShowsGrows(slots.rest, es.rest, open, closed, more);
      if slots.cell.Child? && slots.cell.d != open {
        ShowsGrows(slots.cell.d.slots, es.value.entries, null, closed, more);
      }
    }
  }

  lemma {:induction false} ShownKeys(slots: Slots, es: Entries, open: Dictionary?, closed: set<Dictionary>)
    requires Shows(slots, es, open, closed)
    ensures SlotKeys(slots) == Keys(es)
    ensures forall d :: Mentions(slots, d) ==> d == open || d in closed
    decreases es
  {
    if slots.Slot? {
      ShownKeys(slots.rest, es.rest, open, closed);
    }
  }

  lemma {:induction false} PutKeepsDistinct(slots: Slots, key: string, cell: Cell)
    requires DistinctKeys(slots)
    ensures DistinctKeys(PutSlot(slots, key, cell)) && SlotKeys(PutSlot(slots, key, cell)) == SlotKeys(slots) + {key}
  {
    if slots.Slot? {
      PutKeepsDistinct(slots.rest, key, cell);
    }
  }

  lemma {:induction false} SetScalarShows(slots: Slots, es: Entries, key: string, v: Value, closed: set<Dictionary>)
    requires Shows(slots, es, null, closed) && !v.Nested?
    ensures Shows(PutSlot(slots, key, Scalar(v)), Put(es, key, v), null, closed)
    decreases es
  {
    if slots.Slot? && slots.key != key {
      SetScalarShows(slots.rest, es.rest, key, v, closed);
    }
  }

  lemma {:induction false} SetChildShows(slots: Slots, es: Entries, key: string, d: Dictionary, closed: set<Dictionary>)
    requires Shows(slots, es, null, closed) && d !in closed
    ensures Shows(PutSlot(slots, key, Child(d)), Put(es, key, Nested(Empty)), d, closed)
    ensures Stores(PutSlot(slots, key, Child(d)), key, d)
    decreases es
  {
    ShownKeys(slots, es, null, closed);
    if slots.Slot? {
      if slots.key != key {
        SetChildShows(slots.rest, es.rest, key, d, closed);
      } else {
        ShowsWithoutOpen(slots.rest, es.rest, d, closed);
      }
    }
  }

  lemma {:induction false} ShowsWithoutOpen(slots: Slots, es: Entries, d: Dictionary, closed: set<Dictionary>)
    requires Shows(slots, es, null, closed) && d !in closed
    ensures Shows(slots, es, d, closed)
    decreases es
  {
    if slots.Slot? {
      ShowsWithoutOpen(slots.rest, es.rest, d, closed);
    }
  }

  lemma {:induction false} ClosingShows(slots: Slots, es: Entries, key: string, d: Dictionary, sub: Entries,
                                        closed: set<Dictionary>)
    requires Shows(slots, es, d, closed) && Stores(slots, key, d) && d !in closed
    requires Shows(d.slots, sub, null, closed)
    ensures Shows(slots, Put(es, key, Nested(sub)), null, closed + {d})
    decreases es
  {
    var more := closed + {d};
    ShowsGrows(d.slots, sub, null, closed, more);
    if slots.key == key {
      NothingLeftOpen(slots.rest, es.rest, d, closed);
    } else {
      ClosingShows(slots.rest, es.rest, key, d, sub, closed);
      if slots.cell.Child? {
        ShowsGrows(slots.cell.d.slots, es.value.entries, null, closed, more);
      }
    }
  }

  lemma {:induction false} NothingLeftOpen(slots: Slots, es: Entries, d: Dictionary, closed: set<Dictionary>)
    requires Shows(slots, es, d, closed) && !Mentions(slots, d)
    ensures Shows(slots, es, null, closed + {d})
    decreases es
  {
    if slots.Slot? {
      NothingLeftOpen(slots.rest, es.rest, d, closed);
      if slots.cell.Child? {
        ShowsGrows(slots.cell.d.slots, es.value.entries, null, closed, closed + {d});
      }
    }
  }

  /** Popping the stack changes no dictionary; the popped one is closed. */
  lemma PopLinked(stack: seq<Open>, frames: Stack, closed: set<Dictionary>)
    requires Linked(stack, frames, closed) && |stack| > 1
    ensures Linked(stack[..|stack| - 1], Pop(frames), closed + {stack[|stack| - 1].d})
  {
    hide Shows, Stores, DistinctKeys, Put;
    var n := |stack| - 1;
    var below, d, more := stack[..n], stack[n].d, closed + {stack[n].d};
    ClosingShows(stack[n - 1].d.slots, frames[n - 1].entries, frames[n].key, d, frames[n].entries, closed);
    var popped := Pop(frames);
    AssignAt(frames[..n], frames[n].key, Nested(frames[n].entries));
    forall i | 0 <= i < n - 1
      ensures Shows(below[i].d.slots, popped[i].entries, below[i + 1].d, more)
    {
      ShowsGrows(stack[i].d.slots, frames[i].entries, stack[i + 1].d, closed, more);
    }
  }

  method PopStack(stack: seq<Open>, indent: int, ghost frames: Stack, ghost closed: set<Dictionary>)
    returns (open: seq<Open>, ghost unfolded: Stack, ghost more: set<Dictionary>)
    requires Linked(stack, frames, closed)
    ensures Linked(open, unfolded, more) && unfolded == PopTo(frames, indent)
    ensures open != [] && open <= stack && closed <= more && more <= closed + set o | o in stack :: o.d
    ensures |open| > 1 ==> open[|open| - 1].indent < indent
    ensures forall i :: |open| <= i < |stack| ==> indent <= stack[i].indent
  {
    hide Linked, Pop;
    open, unfolded, more := stack, frames, closed;
    LinkedShape(open, unfolded, more);
    while |open| > 1 && indent <= open[|open| - 1].indent
      invariant Linked(open, unfolded, more) && |open| == |unfolded| > 0
      invariant PopTo(unfolded, indent) == PopTo(frames, indent)
      invariant open <= stack && closed <= more && more <= closed + set o | o in stack :: o.d
      invariant forall i :: |open| <= i < |stack| ==> indent <= stack[i].indent
      invariant open[|open| - 1].indent == Last(unfolded).indent
    {
      PopLinked(open, unfolded, more);
      assert open[|open| - 1] in stack;
      more := more + {open[|open| - 1].d};
      unfolded := Pop(unfolded);
      open := open[..|open| - 1];
      LinkedShape(open, unfolded, more);
    }
  }

  lemma LinkedShape(stack: seq<Open>, frames: Stack, closed: set<Dictionary>)
    requires Linked(stack, frames, closed)
    ensures |stack| == |frames| > 0 && stack[|stack| - 1].indent == Last(frames).indent
    ensures forall o :: o in stack ==> o.d !in closed
    ensures forall i :: 0 <= i < |stack| - 1 ==> stack[i].d != stack[|stack| - 1].d
  {
  }

  method StoreScalar(stack: seq<Open>, key: string, v: Value, ghost frames: Stack, ghost closed: set<Dictionary>)
    requires Linked(stack, frames, closed) && !v.Nested?
    modifies stack[|stack| - 1].d
    ensures Linked(stack, Assign(frames, key, v), closed)
  {
    hide Shows, Below, DistinctKeys, Put, Assign;
    LinkedShape(stack, frames, closed);
    var parent := stack[|stack| - 1].d;
    SetScalarShows(parent.slots, frames[|stack| - 1].entries, key, v, closed);
    PutKeepsDistinct(parent.slots, key, Scalar(v));
    parent.Set(key, Scalar(v));
    BelowAfterAssign(stack, frames, key, v, closed);
  }

  lemma BelowAfterAssign(stack: seq<Open>, frames: Stack, key: string, v: Value, closed: set<Dictionary>)
    requires Below(stack, frames, closed)
    ensures Below(stack, Assign(frames, key, v), closed)
    ensures Assign(frames, key, v)[|stack| - 1].entries == Put(frames[|stack| - 1].entries, key, v)
  {
    hide Shows, Stores, DistinctKeys, Put, Assign;
    AssignAt(frames, key, v);
  }

  method OpenChild(stack: seq<Open>, indent: int, key: string, ghost frames: Stack, ghost closed: set<Dictionary>)
    returns (child: Dictionary)
    requires Linked(stack, frames, closed)
    modifies stack[|stack| - 1].d
    ensures fresh(child)
    ensures Linked(stack + [Open(indent, child)],
                   Assign(frames, key, Nested(Empty)) + [Frame(indent, key, Empty)], closed)
  {
    hide Shows, Below, DistinctKeys, Put, Assign, Stores;
    LinkedShape(stack, frames, closed);
    var parent := stack[|stack| - 1].d;
    child := new Dictionary();
    SetChildShows(parent.slots, frames[|stack| - 1].entries, key, child, closed);
    PutKeepsDistinct(parent.slots, key, Child(child));
    parent.Set(key, Child(child));
    BelowAfterAssign(stack, frames, key, Nested(Empty), closed);
    LinkChild(stack, Open(indent, child), key, Assign(frames, key, Nested(Empty)), closed);
  }

  /** A new dictionary on top of the stack, stored in the one below. */
  lemma LinkChild(stack: seq<Open>, top: Open, key: string, frames: Stack, closed: set<Dictionary>)
    requires Below(stack, frames, closed)
    requires top.d !in closed && top.d.slots == NoSlot && forall o :: o in stack ==> o.d != top.d
    requires var slots := stack[|stack| - 1].d.slots;
             && DistinctKeys(slots) && Stores(slots, key, top.d)
             && Shows(slots, frames[|stack| - 1].entries, top.d, closed)
    ensures Linked(stack + [top], frames + [Frame(top.indent, key, Empty)], closed)
  {
    hide Shows, Stores, DistinctKeys;
    EmptyDictionary(closed);
    var grown, more := stack + [top], frames + [Frame(top.indent, key, Empty)];
    forall i | 0 <= i < |grown| - 1
      ensures DistinctKeys(grown[i].d.slots) && Shows(grown[i].d.slots, more[i].entries, grown[i + 1].d, closed)
      ensures Stores(grown[i].d.slots, more[i + 1].key, grown[i + 1].d)
    {
    }
  }

  lemma AssignAt(frames: Stack, key: string, v: Value)
    requires frames != []
    ensures var n, r := |frames| - 1, Assign(frames, key, v);
            (forall i :: 0 <= i < n ==> r[i] == frames[i]) && r[n] == frames[n].(entries := Put(frames[n].entries, key, v))
  {
  }

  lemma EmptyDictionary(closed: set<Dictionary>)
    ensures DistinctKeys(NoSlot) && Shows(NoSlot, Empty, null, closed)
  {
  }

  lemma ScalarIsNotNested(raw: string)
    ensures !ParseScalar(raw).Nested?
  {
  }

  /** Parses the front matter into dictionaries.  The root holds the entries that
      the text denotes. */
  method Parse(text: string) returns (r: Result<Dictionary>, ghost closed: set<Dictionary>)
    ensures match ParseFrontMatter(text)
            case Err(error) => r == Err(error)
            case Ok(es) => r.Ok? && fresh(r.value) && r.value !in closed && Shows(r.value.slots, es, null, closed)
  {
    hide Linked, Shows, PopTo, Assign, ReadLine, ParseScalar, ParseLines;
    assert Increasing(BOTTOM);
    var root := new Dictionary();
    var stack := [Open(-1, root)];
    ghost var frames := BOTTOM;
    closed := {};
    OnlyRoot(root);
    var lines := SplitLines(text);
    assert lines[0..] == lines;
    for i := 0 to |lines|
      invariant Linked(stack, frames, closed) && Increasing(frames) && stack != []
      invariant stack[0].d == root && fresh(root)
      invariant forall o :: o in stack ==> fresh(o.d)
      invariant ParseLines(frames, lines[i..]) == ParseLines(BOTTOM, lines)
    {
      var line := ReadLine(lines[i]);
      NextLine(frames, lines, i);
      if line.BadLine? {
        return Err(line.error), closed;
      }
      if line.Item? {
        ghost var unfolded;
        stack, unfolded, closed := PopStack(stack, line.indent, frames, closed);
        LinkedShape(stack, unfolded, closed);
        if line.raw == "" {
          var child := OpenChild(stack, line.indent, line.key, unfolded, closed);
          stack := stack + [Open(line.indent, child)];
        } else {
          ScalarIsNotNested(line.raw);
          StoreScalar(stack, line.key, ParseScalar(line.raw), unfolded, closed);
        }
        PlaceKeepsIncreasing(frames, line);
        frames := Place(frames, line);
      }
    }
    NoMoreLines(frames, lines);
    LinkedShape(stack, frames, closed);
    closed := RootIsComplete(stack, frames, closed);
    r := Ok(root);
  }

  lemma OnlyRoot(root: Dictionary)
    requires root.slots == NoSlot
    ensures Linked([Open(-1, root)], BOTTOM, {})
  {
    EmptyDictionary({});
  }

  lemma NextLine(frames: Stack, lines: seq<string>, i: nat)
    requires frames != [] && i < |lines|
    ensures var line := ReadLine(lines[i]);
            ParseLines(frames, lines[i..]) ==
            if line.BadLine? then Err(line.error)
            else ParseLines(if line.Item? then Place(frames, line) else frames, lines[i + 1..])
  {
    hide ReadLine, Place;
    assert lines[i..][0] == lines[i] && lines[i..][1..] == lines[i + 1..];
  }

  lemma NoMoreLines(frames: Stack, lines: seq<string>)
    requires frames != []
    ensures ParseLines(frames, lines[|lines|..]) == Ok(frames)
  {
  }

  /** Closing everything that is still open completes the root. */
  lemma {:induction false} RootIsComplete(stack: seq<Open>, frames: Stack, closed: set<Dictionary>)
    returns (more: set<Dictionary>)
    requires Linked(stack, frames, closed) && frames != []
    requires Increasing(frames)
    ensures stack[0].d !in more && Shows(stack[0].d.slots, PopTo(frames, 0)[0].entries, null, more)
    decreases |stack|
  {
    hide Shows, Pop;
    if |stack| > 1 {
      PopLinked(stack, frames, closed);
      PopKeepsIncreasing(frames);
      more := RootIsComplete(stack[..|stack| - 1], Pop(frames), closed + {stack[|stack| - 1].d});
    } else {
      more := closed;
    }
  }

  lemma PopKeepsIncreasing(frames: Stack)
    requires |frames| > 1 && Increasing(frames)
    ensures Increasing(Pop(frames)) && Last(frames).indent >= 0
  {
    assert frames[0].indent < Last(frames).indent;
  }
}
