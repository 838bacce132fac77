/** The metadata of an execution plan: the entries of its metadata sections, read
    from what remains of the document without fenced blocks. */
module Metadata {
  import opened Fences
  import opened Text
  import opened Unique

  datatype Reading = NoEntry | Entry(key: string, value: string)

  /** The form of an entry, the headings of metadata sections, the known keys. */
  datatype Rules = Rules(read: string -> Reading, isHeader: string -> bool, allowed: set<string>)

  predicate IsHeading(line: string) {
    StartsWith(Strip(line), "## ")
  }

  /** Whether the last heading opened a metadata section. */
  function InSection(rules: Rules, lines: seq<string>): bool {
    lines != []
    && var n := |lines| - 1;
       if IsHeading(lines[n]) then rules.isHeader(Strip(lines[n])) else InSection(rules, lines[..n])
  }

  /** The entries with a known key, in order. */
  function Entries(rules: Rules, lines: seq<string>): seq<Reading> {
    if lines == [] then []
    else
      var n := |lines| - 1;
      Entries(rules, lines[..n]) + EntryOf(rules, InSection(rules, lines[..n]), lines[n])
  }

  function EntryOf(rules: Rules, inside: bool, line: string): seq<Reading> {
    if IsHeading(line) || !inside then []
    else
      match rules.read(Strip(line))
      case NoEntry => []
      case Entry(key, value) => if key in rules.allowed then [Entry(key, value)] else []
  }

  datatype Conflict = NoConflict | Repeated(key: string)

  datatype Plan = Plan(values: map<string, string>, conflict: Conflict)

  function Add(plan: Plan, e: Reading): Plan {
    match e
    case NoEntry => plan
    case Entry(key, value) =>
      if key !in plan.values then plan.(values := plan.values[key := value])
      else if plan.conflict == NoConflict then plan.(conflict := Repeated(key))
      else plan
  }

  function Collect(entries: seq<Reading>): Plan {
    if entries == [] then Plan(map[], NoConflict)
    else Add(Collect(entries[..|entries| - 1]), entries[|entries| - 1])
  }

  lemma EntryIsOne(rules: Rules, inside: bool, line: string)
    ensures var e := EntryOf(rules, inside, line); e == [] || (|e| == 1 && e[0].Entry?)
    ensures IsHeading(line) ==> EntryOf(rules, inside, line) == []
  {
    hide IsHeading;
  }

  lemma CollectOneMore(before: seq<Reading>, e: seq<Reading>)
    requires |e| <= 1
    ensures Collect(before + e) == if e == [] then Collect(before) else Add(Collect(before), e[0])
  {
    hide Add;
    if e == [] {
      assert before + e == before;
    } else {
      assert (before + e)[..|before|] == before;
    }
  }

  method ParseExecPlanMetadata(rules: Rules, lines: seq<string>) returns (plan: Plan)
    ensures plan == Collect(Entries(rules, StripFences(lines)))
  {
    hide IsHeading, Add, StripFences, EntryOf, Collect;
    var kept := StripFencedCodeBlocks(lines);
    plan := Plan(map[], NoConflict);
    NothingCollected();
    var inside := false;
    for i := 0 to |kept|
      invariant plan == Collect(Entries(rules, kept[..i]))
      invariant inside == InSection(rules, kept[..i])
    {
      assert kept[..i + 1][..i] == kept[..i];
      EntryIsOne(rules, inside, kept[i]);
      CollectOneMore(Entries(rules, kept[..i]), EntryOf(rules, inside, kept[i]));
      if IsHeading(kept[i]) {
        inside := rules.isHeader(Strip(kept[i]));
      } else {
        var entry := EntryOf(rules, inside, kept[i]);
        if entry != [] {
          plan := Add(plan, entry[0]);
        }
      }
    }
    assert kept[..|kept|] == kept;
  }

  lemma NothingCollected()
    ensures Collect([]) == Plan(map[], NoConflict)
  {
  }

  predicate AllEntries(entries: seq<Reading>) {
    forall i :: 0 <= i < |entries| ==> entries[i].Entry?
  }

  /** The position of the first entry with a key. */
  function First(entries: seq<Reading>, key: string): (i: nat)
    requires AllEntries(entries)
    ensures i <= |entries| && (i < |entries| ==> entries[i].key == key)
    ensures forall j :: 0 <= j < i ==> entries[j].key != key
  {
    if entries == [] || entries[0].key == key then 0 else 1 + First(entries[1..], key)
  }

  /** A key has a value exactly when it has an entry, and then the first one's. */
  lemma {:induction false} FirstValueWins(entries: seq<Reading>, key: string)
    requires AllEntries(entries)
    ensures var values := Collect(entries).values;
            && (key in values <==> exists i :: 0 <= i < |entries| && entries[i].key == key)
            && (key in values ==>
                  First(entries, key) < |entries| && values[key] == entries[First(entries, key)].value)
  {
    if entries != [] {
      var n := |entries| - 1;
      FirstValueWins(entries[..n], key);
      FirstValueWins(entries[..n], entries[n].key);
      FirstInPrefix(entries, key, n);
    }
  }

  lemma FirstInPrefix(entries: seq<Reading>, key: string, n: nat)
    requires AllEntries(entries) && n <= |entries|
    ensures First(entries[..n], key) < n ==> First(entries, key) == First(entries[..n], key)
  {
    var i, k := First(entries[..n], key), First(entries, key);
    if i < n {
      assert entries[i].key == key && entries[..n][i] == entries[i];
      assert k <= i;
      assert k < n ==> entries[..n][k].key == key;
    }
  }

  function KeysOf(entries: seq<Reading>): seq<string>
    requires AllEntries(entries)
  {
    seq(|entries|, i requires 0 <= i < |entries| => entries[i].key)
  }

  /** A conflict is reported exactly when some key is repeated, and it names one
      that is. */
  lemma {:induction false} ConflictIsExact(entries: seq<Reading>)
    requires AllEntries(entries)
    ensures Collect(entries).conflict == NoConflict <==> Distinct(KeysOf(entries))
    ensures Collect(entries).conflict.Repeated? ==> Collect(entries).conflict.key in Duplicates(KeysOf(entries))
  {
    if entries != [] {
      var n := |entries| - 1;
      ConflictIsExact(entries[..n]);
      FirstValueWins(entries[..n], entries[n].key);
      var before, last := KeysOf(entries[..n]), entries[n].key;
      assert KeysOf(entries) == before + [last];
      KeysOneMore(before, last);
      KeysAreKeys(entries[..n], last);
    }
  }

  lemma KeysAreKeys(entries: seq<Reading>, key: string)
    requires AllEntries(entries)
    ensures key in KeysOf(entries) <==> exists i :: 0 <= i < |entries| && entries[i].key == key
  {
    var keys := KeysOf(entries);
    assert forall i :: 0 <= i < |entries| ==> keys[i] == entries[i].key;
  }

  lemma KeysOneMore(before: seq<string>, last: string)
    ensures Distinct(before + [last]) <==> Distinct(before) && last !in before
    ensures forall x :: x in Duplicates(before) ==> x in Duplicates(before + [last])
    ensures last in before ==> last in Duplicates(before + [last])
  {
    var more := before + [last];
    assert forall i :: 0 <= i < |before| ==> more[i] == before[i];
    assert more[|before|] == last;
    assert last in before ==> last in multiset(before);
  }

  lemma {:induction false} EntriesAreEntries(rules: Rules, lines: seq<string>)
    ensures AllEntries(Entries(rules, lines))
  {
    hide EntryOf, InSection;
    if lines != [] {
      var n := |lines| - 1;
      EntriesAreEntries(rules, lines[..n]);
      EntryIsOne(rules, InSection(rules, lines[..n]), lines[n]);
    }
  }

  lemma {:induction false} EntriesComeFromLines(rules: Rules, lines: seq<string>)
    ensures forall e :: e in Entries(rules, lines) ==>
              e.Entry? && e.key in rules.allowed && exists k :: 0 <= k < |lines| && rules.read(Strip(lines[k])) == e
  {
    hide Strip, IsHeading, InSection;
    if lines != [] {
      var n := |lines| - 1;
      EntriesComeFromLines(rules, lines[..n]);
      forall e | e in Entries(rules, lines)
        ensures e.Entry? && e.key in rules.allowed && exists k :: 0 <= k < |lines| && rules.read(Strip(lines[k])) == e
      {
        if e in Entries(rules, lines[..n]) {
          var k :| 0 <= k < n && rules.read(Strip(lines[..n][k])) == e;
          assert lines[..n][k] == lines[k];
        } else {
          assert rules.read(Strip(lines[n])) == e;
        }
      }
    }
  }

  /** Fenced blocks never contribute metadata: the plan is that of the plain lines
      alone, headings inside blocks included, and each of its values stands in one
      of them. */
  lemma FencesDoNotCount(rules: Rules, d: Document, key: string)
    requires GoodDocument(d)
    ensures var plan := Collect(Entries(rules, StripFences(LinesOf(d))));
            && plan == Collect(Entries(rules, PlainLines(d.parts)))
            && (key in plan.values ==>
                  key in rules.allowed
                  && exists k :: 0 <= k < |PlainLines(d.parts)|
                       && rules.read(Strip(PlainLines(d.parts)[k])) == Entry(key, plan.values[key]))
  {
    hide StripFences, Entries, GoodDocument, Collect, PlainLines, LinesOf, Strip;
    StripKeepsPlainLines(d);
    var plain := PlainLines(d.parts);
    var entries := Entries(rules, plain);
    EntriesAreEntries(rules, plain);
    FirstValueWins(entries, key);
    EntriesComeFromLines(rules, plain);
    if key in Collect(entries).values {
      var e := entries[First(entries, key)];
      assert e in entries;
    }
  }
}
