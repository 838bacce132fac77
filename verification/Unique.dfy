/** Repeated values in a sequence: finding them and dropping them. */
module Unique {

  /** The first occurrence of each value, in order. */
  function Dedupe(s: seq<string>): (r: seq<string>)
    ensures forall x :: x in r <==> x in s
  {
    if s == [] then []
    else
      var n := |s| - 1;
      Dedupe(s[..n]) + (if s[n] in s[..n] then [] else [s[n]])
  }

  predicate Distinct(s: seq<string>) {
    forall i, j :: 0 <= i < j < |s| ==> s[i] != s[j]
  }

  lemma {:induction false} DedupeIsDistinct(s: seq<string>)
    ensures Distinct(Dedupe(s))
  {
    if s != [] {
      DedupeIsDistinct(s[..|s| - 1]);
    }
  }

  /** A sequence is left alone exactly when nothing in it is repeated. */
  lemma {:induction false} DedupeFixesExactlyDistinct(s: seq<string>)
    ensures |Dedupe(s)| <= |s|
    ensures Dedupe(s) == s <==> Distinct(s)
  {
    if s != [] {
      var n := |s| - 1;
      DedupeFixesExactlyDistinct(s[..n]);
      assert s == s[..n] + [s[n]];
    }
  }

  method DedupeValues(s: seq<string>) returns (values: seq<string>)
    ensures values == Dedupe(s)
  {
    values := [];
    var seen: set<string> := {};
    for i := 0 to |s|
      invariant values == Dedupe(s[..i])
      invariant forall x :: x in seen <==> x in s[..i]
    {
      assert s[..i + 1][..i] == s[..i];
      if s[i] !in seen {
        seen := seen + {s[i]};
        values := values + [s[i]];
      }
    }
    assert s[..|s|] == s;
  }

  /** The values that occur more than once. */
  function Duplicates(s: seq<string>): set<string> {
    set x | x in s && multiset(s)[x] > 1
  }

  method DuplicateValues(s: seq<string>) returns (duplicates: set<string>)
    ensures duplicates == Duplicates(s)
  {
    duplicates := {};
    var seen: set<string> := {};
    for i := 0 to |s|
      invariant forall x :: x in seen <==> x in multiset(s[..i])
      invariant forall x :: x in duplicates <==> multiset(s[..i])[x] > 1
    {
      assert s[..i + 1] == s[..i] + [s[i]];
      if s[i] in seen {
        duplicates := duplicates + {s[i]};
      }
      seen := seen + {s[i]};
    }
    assert s[..|s|] == s;
    assert forall x :: x in s <==> x in multiset(s);
  }
}
