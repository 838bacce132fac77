/** Matching an adapter's resource profiles with a provider's offer, and sorting
    the profile evidence of a carrier into resolved and unresolved references. */
module Compatibility {
  import opened Unique

  // ------------------------------------------------------------------ matching

  const CAPABILITY_ORDER: seq<string> := ["account", "proxy"]

  datatype Profile = Profile(key: string, mode: string, capabilities: seq<string>, evidenceRef: string)

  datatype Match = Match(requirement: string, offer: string, mode: string, capabilities: seq<string>,
                         requirementRef: string, offerRef: string)

  function InOrder(order: seq<string>, values: seq<string>): seq<string> {
    if order == [] then []
    else (if order[0] in values then [order[0]] else []) + InOrder(order[1..], values)
  }

  function Normalized(capabilities: seq<string>): seq<string> {
    InOrder(CAPABILITY_ORDER, capabilities)
  }

  /** The approved capabilities among some. */
  function Approved(capabilities: seq<string>): set<string> {
    set c | c in CAPABILITY_ORDER && c in capabilities
  }

  predicate SameTuple(r: Profile, o: Profile) {
    r.mode == o.mode && Normalized(r.capabilities) == Normalized(o.capabilities)
  }

  function MatchOf(r: Profile, o: Profile): Match {
    Match(r.key, o.key, r.mode, Normalized(r.capabilities), r.evidenceRef, o.evidenceRef)
  }

  function Row(r: Profile, offers: seq<Profile>): seq<Match> {
    if offers == [] then []
    else
      var n := |offers| - 1;
      Row(r, offers[..n]) + (if SameTuple(r, offers[n]) then [MatchOf(r, offers[n])] else [])
  }

  function Matches(requirements: seq<Profile>, offers: seq<Profile>): seq<Match> {
    if requirements == [] then []
    else
      var n := |requirements| - 1;
      Matches(requirements[..n], offers) + Row(requirements[n], offers)
  }

  method MatchProfiles(requirements: seq<Profile>, offers: seq<Profile>) returns (matched: seq<Match>)
    ensures matched == Matches(requirements, offers)
  {
    hide SameTuple, MatchOf;
    matched := [];
    for i := 0 to |requirements|
      invariant matched == Matches(requirements[..i], offers)
    {
      ghost var before := matched;
      for j := 0 to |offers|
        invariant matched == before + Row(requirements[i], offers[..j])
      {
        assert offers[..j + 1][..j] == offers[..j];
        if SameTuple(requirements[i], offers[j]) {
          matched := matched + [MatchOf(requirements[i], offers[j])];
        }
      }
      assert offers[..|offers|] == offers;
      assert requirements[..i + 1][..i] == requirements[..i];
    }
    assert requirements[..|requirements|] == requirements;
  }

  lemma {:induction false} InOrderHolds(order: seq<string>, values: seq<string>)
    ensures forall c :: c in InOrder(order, values) <==> c in order && c in values
  {
    if order != [] {
      InOrderHolds(order[1..], values);
      assert order == [order[0]] + order[1..];
    }
  }

  lemma {:induction false} InOrderDependsOnMembers(order: seq<string>, a: seq<string>, b: seq<string>)
    requires forall c :: c in order ==> (c in a <==> c in b)
    ensures InOrder(order, a) == InOrder(order, b)
  {
    if order != [] {
      InOrderDependsOnMembers(order[1..], a, b);
    }
  }

  /** Order and repetition of capabilities do not matter, nor do unapproved ones. */
  lemma NormalizedIsApprovedSet(a: seq<string>, b: seq<string>)
    ensures Normalized(a) == Normalized(b) <==> Approved(a) == Approved(b)
  {
    hide InOrder;
    InOrderHolds(CAPABILITY_ORDER, a);
    InOrderHolds(CAPABILITY_ORDER, b);
    if Approved(a) == Approved(b) {
      forall c | c in CAPABILITY_ORDER
        ensures c in a <==> c in b
      {
        assert c in Approved(a) <==> c in Approved(b);
      }
      InOrderDependsOnMembers(CAPABILITY_ORDER, a, b);
    }
    if Normalized(a) == Normalized(b) {
      forall c
        ensures c in Approved(a) <==> c in Approved(b)
      {
        assert c in Approved(a) <==> c in Normalized(a);
      }
    }
  }

  predicate Fits(r: Profile, o: Profile) {
    r.mode == o.mode && Approved(r.capabilities) == Approved(o.capabilities)
  }

  lemma {:induction false} RowIsExact(r: Profile, offers: seq<Profile>)
    ensures forall m :: m in Row(r, offers) <==>
                        exists j :: 0 <= j < |offers| && Fits(r, offers[j]) && m == MatchOf(r, offers[j])
  {
    hide MatchOf, Normalized, Approved;
    if offers != [] {
      var n := |offers| - 1;
      RowIsExact(r, offers[..n]);
      NormalizedIsApprovedSet(r.capabilities, offers[n].capabilities);
    }
  }

  /** The matches are exactly the pairs of profiles with equal mode and equal sets
      of approved capabilities. */
  lemma {:induction false} MatchesAreExact(requirements: seq<Profile>, offers: seq<Profile>)
    ensures forall m :: m in Matches(requirements, offers) <==>
              exists i, j :: 0 <= i < |requirements| && 0 <= j < |offers| && Fits(requirements[i], offers[j])
                             && m == MatchOf(requirements[i], offers[j])
  {
    hide MatchOf, Fits, Row;
    if requirements != [] {
      var n := |requirements| - 1;
      MatchesAreExact(requirements[..n], offers);
      RowIsExact(requirements[n], offers);
    }
  }

  /** Each matching pair is reported once. */
  function FittingPairs(requirements: seq<Profile>, offers: seq<Profile>): set<(int, int)> {
    set i, j | 0 <= i < |requirements| && 0 <= j < |offers| && Fits(requirements[i], offers[j]) :: (i, j)
  }

  function FittingOffers(r: Profile, i: int, offers: seq<Profile>): set<(int, int)> {
    set j | 0 <= j < |offers| && Fits(r, offers[j]) :: (i, j)
  }

  lemma {:induction false} RowCounts(r: Profile, i: int, offers: seq<Profile>)
    ensures |Row(r, offers)| == |FittingOffers(r, i, offers)|
  {
    hide MatchOf, Normalized, Approved;
    if offers == [] {
      assert FittingOffers(r, i, offers) == {};
    } else {
      var n := |offers| - 1;
      RowCounts(r, i, offers[..n]);
      NormalizedIsApprovedSet(r.capabilities, offers[n].capabilities);
      assert FittingOffers(r, i, offers)
          == FittingOffers(r, i, offers[..n]) + (if Fits(r, offers[n]) then {(i, n)} else {});
    }
  }

  lemma {:induction false} MatchesAreCounted(requirements: seq<Profile>, offers: seq<Profile>)
    ensures |Matches(requirements, offers)| == |FittingPairs(requirements, offers)|
  {
    hide Fits, Row;
    if requirements == [] {
      assert FittingPairs(requirements, offers) == {};
    } else {
      var n := |requirements| - 1;
      MatchesAreCounted(requirements[..n], offers);
      RowCounts(requirements[n], n, offers);
      var a, b := FittingPairs(requirements[..n], offers), FittingOffers(requirements[n], n, offers);
      assert FittingPairs(requirements, offers) == a + b;
      assert a !! b;
    }
  }

  // ------------------------------------------------------------------ evidence

  datatype TextOption = NoText | SomeText(text: string)

  /** One evidence reference of a profile, with what its carrier says about it. */
  datatype Record = Record(ref: string, adapter: TextOption, capability: TextOption, operation: TextOption,
                           targetType: TextOption, collectionMode: TextOption, mode: TextOption,
                           capabilities: seq<string>)

  datatype Proof = Proof(adapters: set<string>, capability: string, operation: string, targetType: string,
                         collectionMode: string, mode: string, capabilities: seq<string>)

  predicate AgreesWith(r: Record, p: Proof) {
    && r.adapter.SomeText? && r.adapter.text in p.adapters
    && r.capability == SomeText(p.capability)
    && r.operation == SomeText(p.operation)
    && r.targetType == SomeText(p.targetType)
    && r.collectionMode == SomeText(p.collectionMode)
    && r.mode == SomeText(p.mode)
    && r.capabilities == p.capabilities
  }

  function RecordsOf(ref: string, records: seq<Record>): seq<Record> {
    if records == [] then []
    else (if records[0].ref == ref then [records[0]] else []) + RecordsOf(ref, records[1..])
  }

  predicate IsProved(ref: string, records: seq<Record>, proofs: map<string, Proof>) {
    && ref in proofs
    && |RecordsOf(ref, records)| == 1
    && AgreesWith(RecordsOf(ref, records)[0], proofs[ref])
  }

  function RefsOf(records: seq<Record>): seq<string> {
    seq(|records|, i requires 0 <= i < |records| => records[i].ref)
  }

  /** The three places a carrier lists its profile references in. */
  datatype Carrier = Carrier(records: seq<Record>, evidence: seq<string>, observability: seq<string>)

  predicate IsResolved(c: Carrier, proofs: map<string, Proof>, ref: string) {
    var profiles := RefsOf(c.records);
    && ref in proofs
    && ref in profiles && ref in c.evidence && ref in c.observability
    && ref !in Duplicates(profiles) + Duplicates(c.evidence) + Duplicates(c.observability)
    && IsProved(ref, c.records, proofs)
  }

  function Filter(c: Carrier, proofs: map<string, Proof>, refs: seq<string>, resolved: bool): (r: seq<string>)
    ensures forall x :: x in r <==> x in refs && IsResolved(c, proofs, x) == resolved
  {
    if refs == [] then []
    else
      (if IsResolved(c, proofs, refs[0]) == resolved then [refs[0]] else []) + Filter(c, proofs, refs[1..], resolved)
  }

  function AllRefs(c: Carrier): seq<string> {
    RefsOf(c.records) + c.evidence + c.observability
  }

  function Classify(c: Carrier, proofs: map<string, Proof>): (seq<string>, seq<string>) {
    (Dedupe(Filter(c, proofs, AllRefs(c), true)), Dedupe(Filter(c, proofs, AllRefs(c), false)))
  }

  lemma {:induction false} RecordsAreCounted(ref: string, records: seq<Record>)
    ensures |RecordsOf(ref, records)| == multiset(RefsOf(records))[ref]
    ensures forall r :: r in RecordsOf(ref, records) <==> r in records && r.ref == ref
  {
    if records != [] {
      var rest := records[1..];
      RecordsAreCounted(ref, rest);
      assert RefsOf(records) == [records[0].ref] + RefsOf(rest);
      assert records == [records[0]] + rest;
    }
  }

  /** Within one carrier every reference is reported once, as resolved or as
      unresolved. */
  lemma ClassificationPartitions(c: Carrier, proofs: map<string, Proof>)
    ensures var (resolved, unresolved) := Classify(c, proofs);
            && Distinct(resolved) && Distinct(unresolved)
            && (forall ref :: ref in AllRefs(c) <==> ref in resolved || ref in unresolved)
            && (forall ref :: ref in resolved ==> ref !in unresolved)
  {
    hide IsResolved;
    DedupeIsDistinct(Filter(c, proofs, AllRefs(c), true));
    DedupeIsDistinct(Filter(c, proofs, AllRefs(c), false));
  }

  lemma OnceExactly(s: seq<string>, x: string)
    ensures x in s && x !in Duplicates(s) <==> multiset(s)[x] == 1
  {
    assert x in s <==> x in multiset(s);
  }

  lemma ProvedExactly(ref: string, records: seq<Record>, proofs: map<string, Proof>)
    ensures IsProved(ref, records, proofs) <==>
            && ref in proofs && multiset(RefsOf(records))[ref] == 1
            && exists r :: r in records && r.ref == ref && AgreesWith(r, proofs[ref])
  {
    hide AgreesWith, RecordsOf, RefsOf;
    RecordsAreCounted(ref, records);
    var mine := RecordsOf(ref, records);
    if |mine| == 1 {
      assert mine[0] in mine;
      assert forall r :: r in mine ==> r == mine[0];
    }
  }

  /** A resolved reference occurs exactly once in each of the three places, and
      its one record equals the approved proof; nothing else is resolved. */
  lemma ResolvedExactly(c: Carrier, proofs: map<string, Proof>, ref: string)
    ensures ref in Classify(c, proofs).0 <==>
            && multiset(RefsOf(c.records))[ref] == 1
            && multiset(c.evidence)[ref] == 1
            && multiset(c.observability)[ref] == 1
            && ref in proofs
            && exists r :: r in c.records && r.ref == ref && AgreesWith(r, proofs[ref])
  {
    hide AgreesWith, IsProved, RefsOf, Duplicates;
    OnceExactly(RefsOf(c.records), ref);
    OnceExactly(c.evidence, ref);
    OnceExactly(c.observability, ref);
    ProvedExactly(ref, c.records, proofs);
    assert ref in c.evidence ==> ref in AllRefs(c);
  }
}
