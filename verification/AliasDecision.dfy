/** The names that runs may derive, computed; whether the alias analysis is sound or
    exact for a scope is decided by comparing them with its answers. */
module AliasDecision {
  import opened AliasResolve
  import opened AliasAnalysis
  import opened AliasValues
  import opened AliasRuns
  import opened AliasTheorems

  /** Some names in front of each assignment and behind the last. */
  type Sets = seq<set<string>>

  predicate Fit(assignments: seq<Assignment>, starts: Starts, sets: Sets) {
    |sets| == |assignments| + 1 && forall k :: 0 <= k < |sets| ==> sets[k] <= AllNames(assignments, starts)
  }

  /** What comes to the front of the `k`th assignment from where control was. */
  function Arriving(assignments: seq<Assignment>, naming: Naming, jumps: Jumps, scope: Scope, starts: Starts, sets: Sets,
                    k: nat): set<string>
    requires |sets| == |assignments| + 1 && k < |sets|
  {
    (if k == 0 then set s, n | s in starts && n in s :: n else After(assignments[k - 1], naming, scope, sets[k - 1]))
    + (set i, n | 0 <= i < |assignments| && (i, k) in jumps.back && n in After(assignments[i], naming, scope, sets[i]) :: n)
    + (set i, n | 0 <= i < |assignments| && (i, k) in jumps.out && n in sets[i] :: n)
  }

  function Grown(assignments: seq<Assignment>, naming: Naming, jumps: Jumps, scope: Scope, starts: Starts, sets: Sets)
    : (more: Sets)
    requires |sets| == |assignments| + 1
    ensures |more| == |sets| && forall k :: 0 <= k < |sets| ==> sets[k] <= more[k]
  {
    seq(|sets|, k requires 0 <= k < |sets| => sets[k] + Arriving(assignments, naming, jumps, scope, starts, sets, k))
  }

  function Total(sets: Sets): nat {
    if sets == [] then 0 else Total(sets[..|sets| - 1]) + |sets[|sets| - 1]|
  }

  lemma SubsetCounts(a: set<string>, b: set<string>)
    requires a <= b
    ensures |a| <= |b| && (a != b ==> |a| < |b|)
  {
    assert b == a + (b - a);
    assert a != b ==> b - a != {};
  }

  lemma {:induction false} TotalGrows(a: Sets, b: Sets)
    requires |a| == |b| && forall k :: 0 <= k < |a| ==> a[k] <= b[k]
    ensures Total(a) <= Total(b) && (a != b ==> Total(a) < Total(b))
  {
    if a != [] {
      var n := |a| - 1;
      TotalGrows(a[..n], b[..n]);
      SubsetCounts(a[n], b[n]);
      assert a == a[..n] + [a[n]] && b == b[..n] + [b[n]];
    }
  }

  lemma {:induction false} TotalIsBounded(sets: Sets, names: set<string>)
    requires forall k :: 0 <= k < |sets| ==> sets[k] <= names
    ensures Total(sets) <= |sets| * |names|
  {
    if sets != [] {
      var n := |sets| - 1;
      TotalIsBounded(sets[..n], names);
      SubsetCounts(sets[n], names);
      assert |sets| * |names| == n * |names| + |names|;
    }
  }

  lemma AfterIsNamed(a: Assignment, naming: Naming, scope: Scope, may: set<string>)
    ensures After(a, naming, scope, may) <= may + BoundNames(a)
  {
    hide CanBind, BoundNames;
  }

  lemma ArrivingIsNamed(assignments: seq<Assignment>, naming: Naming, jumps: Jumps, scope: Scope, starts: Starts,
                        sets: Sets, k: nat)
    requires Fit(assignments, starts, sets) && k < |sets|
    ensures Arriving(assignments, naming, jumps, scope, starts, sets, k) <= AllNames(assignments, starts)
  {
    hide After, BoundNames;
    forall i | 0 <= i < |assignments|
      ensures After(assignments[i], naming, scope, sets[i]) <= AllNames(assignments, starts)
    {
      AfterIsNamed(assignments[i], naming, scope, sets[i]);
    }
  }

  lemma GrownFits(assignments: seq<Assignment>, naming: Naming, jumps: Jumps, scope: Scope, starts: Starts, sets: Sets)
    requires Fit(assignments, starts, sets)
    ensures Fit(assignments, starts, Grown(assignments, naming, jumps, scope, starts, sets))
  {
    hide Arriving, AllNames;
    forall k | 0 <= k < |sets|
      ensures Grown(assignments, naming, jumps, scope, starts, sets)[k] <= AllNames(assignments, starts)
    {
      ArrivingIsNamed(assignments, naming, jumps, scope, starts, sets, k);
    }
  }

  /** Sets grow until nothing new arrives anywhere. */
  function Closure(assignments: seq<Assignment>, naming: Naming, jumps: Jumps, scope: Scope, starts: Starts, sets: Sets)
    : (closed: Sets)
    requires Fit(assignments, starts, sets)
    ensures |closed| == |assignments| + 1
    decreases |sets| * |AllNames(assignments, starts)| - Total(sets)
  {
    var more := Grown(assignments, naming, jumps, scope, starts, sets);
    if more == sets then sets
    else
      GrownFits(assignments, naming, jumps, scope, starts, sets);
      TotalGrows(sets, more);
      TotalIsBounded(more, AllNames(assignments, starts));
      Closure(assignments, naming, jumps, scope, starts, more)
  }

  function Nothing(assignments: seq<Assignment>): Sets {
    seq(|assignments| + 1, k requires 0 <= k => {})
  }

  lemma NothingFits(assignments: seq<Assignment>, starts: Starts)
    ensures Fit(assignments, starts, Nothing(assignments))
  {
  }

  /** The names that may hold platform-derived values, computed from nothing. */
  function Computed(assignments: seq<Assignment>, naming: Naming, jumps: Jumps, scope: Scope, starts: Starts): (sets: Sets)
    ensures |sets| == |assignments| + 1
  {
    NothingFits(assignments, starts);
    Closure(assignments, naming, jumps, scope, starts, Nothing(assignments))
  }

  // ------------------------------------------------------------------ it is least

  lemma ClosedSolves(assignments: seq<Assignment>, naming: Naming, jumps: Jumps, scope: Scope, starts: Starts, sets: Sets)
    requires |sets| == |assignments| + 1 && Grown(assignments, naming, jumps, scope, starts, sets) == sets
    ensures Solves(assignments, naming, jumps, scope, starts, sets)
  {
    hide After, Arriving;
    forall k | 0 <= k < |sets|
      ensures Arriving(assignments, naming, jumps, scope, starts, sets, k) <= sets[k]
    {
      assert Grown(assignments, naming, jumps, scope, starts, sets)[k] == sets[k];
    }
    ArrivedSolves(assignments, naming, jumps, scope, starts, sets);
  }

  lemma ArrivedSolves(assignments: seq<Assignment>, naming: Naming, jumps: Jumps, scope: Scope, starts: Starts, sets: Sets)
    requires |sets| == |assignments| + 1
    requires forall k :: 0 <= k < |sets| ==> Arriving(assignments, naming, jumps, scope, starts, sets, k) <= sets[k]
    ensures Solves(assignments, naming, jumps, scope, starts, sets)
  {
    hide After;
    forall initial, n | initial in starts && n in initial
      ensures n in sets[0]
    {
      assert n in Arriving(assignments, naming, jumps, scope, starts, sets, 0);
    }
    forall i | 0 <= i < |assignments|
      ensures After(assignments[i], naming, scope, sets[i]) <= sets[i + 1]
    {
      assert After(assignments[i], naming, scope, sets[i]) <= Arriving(assignments, naming, jumps, scope, starts, sets, i + 1);
    }
    forall i, k | 0 <= i < |assignments| && 0 <= k <= |assignments| && (i, k) in jumps.back
      ensures After(assignments[i], naming, scope, sets[i]) <= sets[k]
    {
      assert After(assignments[i], naming, scope, sets[i]) <= Arriving(assignments, naming, jumps, scope, starts, sets, k);
    }
    forall i, k | 0 <= i < |assignments| && 0 <= k <= |assignments| && (i, k) in jumps.out
      ensures sets[i] <= sets[k]
    {
      assert sets[i] <= Arriving(assignments, naming, jumps, scope, starts, sets, k);
    }
  }

  lemma AfterIsMonotone(a: Assignment, naming: Naming, scope: Scope, may: set<string>, more: set<string>)
    requires may <= more
    ensures After(a, naming, scope, may) <= After(a, naming, scope, more)
  {
    hide CanBind, BoundNames, Binds, ValueOf, Platformish;
    forall n | n in BoundNames(a) && CanBind(a, n, may, naming)
      ensures CanBind(a, n, more, naming)
    {
      CanBindExactly(a, n, may, naming);
      CanBindExactly(a, n, more, naming);
      var v :| Binds(a, v) && Platformish(ValueOf(a, v, n), may, naming);
      PlatformishIsMonotone(ValueOf(a, v, n), may, more, naming);
    }
  }

  lemma ArrivingIsBelow(assignments: seq<Assignment>, naming: Naming, jumps: Jumps, scope: Scope, starts: Starts,
                        sets: Sets, solution: Sets, k: nat)
    requires |sets| == |assignments| + 1 && k < |sets| && Solves(assignments, naming, jumps, scope, starts, solution)
    requires forall i :: 0 <= i < |sets| ==> sets[i] <= solution[i]
    ensures Arriving(assignments, naming, jumps, scope, starts, sets, k) <= solution[k]
  {
    hide After;
    forall i | 0 <= i < |assignments|
      ensures After(assignments[i], naming, scope, sets[i]) <= After(assignments[i], naming, scope, solution[i])
    {
      AfterIsMonotone(assignments[i], naming, scope, sets[i], solution[i]);
    }
    if k > 0 {
      assert After(assignments[k - 1], naming, scope, solution[k - 1]) <= solution[(k - 1) + 1];
    }
  }

  lemma {:induction false} ClosureIsLeast(assignments: seq<Assignment>, naming: Naming, jumps: Jumps, scope: Scope,
                                          starts: Starts, sets: Sets, solution: Sets)
    requires Fit(assignments, starts, sets) && Solves(assignments, naming, jumps, scope, starts, solution)
    requires forall k :: 0 <= k < |sets| ==> sets[k] <= solution[k]
    ensures var closed := Closure(assignments, naming, jumps, scope, starts, sets);
            && Solves(assignments, naming, jumps, scope, starts, closed)
            && forall k :: 0 <= k < |sets| ==> closed[k] <= solution[k]
    decreases |sets| * |AllNames(assignments, starts)| - Total(sets)
  {
    hide Solves, Fit, Arriving, AllNames;
    SolutionIsAsLong(assignments, naming, jumps, scope, starts, solution);
    FitIsAsLong(assignments, starts, sets);
    var more := Grown(assignments, naming, jumps, scope, starts, sets);
    if more == sets {
      ClosedSolves(assignments, naming, jumps, scope, starts, sets);
    } else {
      GrownFits(assignments, naming, jumps, scope, starts, sets);
      FitIsAsLong(assignments, starts, more);
      TotalGrows(sets, more);
      TotalIsBounded(more, AllNames(assignments, starts));
      forall k | 0 <= k < |sets|
        ensures more[k] <= solution[k]
      {
        ArrivingIsBelow(assignments, naming, jumps, scope, starts, sets, solution, k);
      }
      ClosureIsLeast(assignments, naming, jumps, scope, starts, more, solution);
    }
  }

  lemma SolutionIsAsLong(assignments: seq<Assignment>, naming: Naming, jumps: Jumps, scope: Scope, starts: Starts, sets: Sets)
    requires Solves(assignments, naming, jumps, scope, starts, sets)
    ensures |sets| == |assignments| + 1
  {
  }

  lemma FitIsAsLong(assignments: seq<Assignment>, starts: Starts, sets: Sets)
    requires Fit(assignments, starts, sets)
    ensures |sets| == |assignments| + 1 && forall k :: 0 <= k < |sets| ==> sets[k] <= AllNames(assignments, starts)
  {
  }

  /** The computed names are exactly those that some run derives. */
  lemma ComputedIsDerived(assignments: seq<Assignment>, naming: Naming, jumps: Jumps, scope: Scope, starts: Starts, k: nat)
    requires starts != {} && k <= |assignments|
    ensures Computed(assignments, naming, jumps, scope, starts)[k] == MayHold(assignments, naming, jumps, scope, starts, k)
  {
    hide Solves, Closure, MayHold;
    var least := MayHoldEverywhere(assignments, naming, jumps, scope, starts);
    MayHoldIsLeastSolution(assignments, naming, jumps, scope, starts);
    NothingFits(assignments, starts);
    ClosureIsLeast(assignments, naming, jumps, scope, starts, Nothing(assignments), least);
    assert Solves(assignments, naming, jumps, scope, starts, Computed(assignments, naming, jumps, scope, starts));
    assert least[k] <= Computed(assignments, naming, jumps, scope, starts)[k];
  }

  // ---------------------------------------------------------------- what it decides

  /** For every scope, with loops and swallowed exceptions, the comparison decides:
      the analysis is sound if and only if it answers every computed name, and exact
      if and only if it answers no other. */
  lemma ComputationDecides(assignments: seq<Assignment>, naming: Naming, jumps: Jumps, scope: Scope, starts: Starts)
    requires Sorted(assignments) && starts != {}
    ensures var sets := Computed(assignments, naming, jumps, scope, starts);
            && (RunsAreCovered(assignments, naming, jumps, scope, starts) <==>
                  forall k :: 0 <= k <= |assignments| ==> sets[k] <= KnownAt(assignments, naming, scope, k))
            && (AnswersAreExact(assignments, naming, jumps, scope, starts) <==>
                  forall k :: 0 <= k <= |assignments| ==> sets[k] == KnownAt(assignments, naming, scope, k))
  {
    hide KnownAt, MayHold, Computed, RunsAreCovered, AnswersAreExact;
    var sets := Computed(assignments, naming, jumps, scope, starts);
    ComputedIsAsLong(assignments, naming, jumps, scope, starts);
    forall k: nat | k <= |assignments|
      ensures sets[k] == MayHold(assignments, naming, jumps, scope, starts, k)
      ensures RunsAreCovered(assignments, naming, jumps, scope, starts) ==> sets[k] <= KnownAt(assignments, naming, scope, k)
      ensures AnswersAreExact(assignments, naming, jumps, scope, starts) ==> sets[k] == KnownAt(assignments, naming, scope, k)
    {
      ComputedIsDerived(assignments, naming, jumps, scope, starts, k);
      if RunsAreCovered(assignments, naming, jumps, scope, starts) {
        CoveredIsHeld(assignments, naming, jumps, scope, starts, k);
      }
      if AnswersAreExact(assignments, naming, jumps, scope, starts) {
        ExactAt(assignments, naming, jumps, scope, starts, k);
      }
    }
    if forall k :: 0 <= k <= |assignments| ==> sets[k] <= KnownAt(assignments, naming, scope, k) {
      HeldIsCovered(assignments, naming, jumps, scope, starts);
    }
    if forall k :: 0 <= k <= |assignments| ==> sets[k] == KnownAt(assignments, naming, scope, k) {
      AgreementIsExactness(assignments, naming, jumps, scope, starts);
    }
  }

  lemma ComputedIsAsLong(assignments: seq<Assignment>, naming: Naming, jumps: Jumps, scope: Scope, starts: Starts)
    ensures |Computed(assignments, naming, jumps, scope, starts)| == |assignments| + 1
  {
    hide Closure;
  }

  // ------------------------------------------------------------ calls of functions

  /** Entering with one of several sets derives what entering with all of them at
      once derives. */
  lemma StartsCanBeJoined(assignments: seq<Assignment>, naming: Naming, jumps: Jumps, scope: Scope, starts: Starts,
                          all: set<string>, k: nat)
    requires starts != {} && k <= |assignments|
    requires forall n :: (exists s :: s in starts && n in s) <==> n in all
    ensures MayHold(assignments, naming, jumps, scope, starts, k) == MayHold(assignments, naming, jumps, scope, {all}, k)
  {
    hide After, MayHold;
    var a := MayHoldEverywhere(assignments, naming, jumps, scope, starts);
    var b := MayHoldEverywhere(assignments, naming, jumps, scope, {all});
    MayHoldIsLeastSolution(assignments, naming, jumps, scope, starts);
    MayHoldIsLeastSolution(assignments, naming, jumps, scope, {all});
    assert Solves(assignments, naming, jumps, scope, {all}, a) by {
      forall n | n in all
        ensures n in a[0]
      {
        var s :| s in starts && n in s;
        assert s <= a[0];
      }
    }
    assert Solves(assignments, naming, jumps, scope, starts, b) by {
      assert all <= b[0];
    }
    assert a[k] <= b[k] <= a[k];
  }

  /** For a function called in front of the module's `m`th assignment the same
      comparison decides, with what is computed for the module at the call as the
      only start. */
  lemma FunctionComputationDecides(assignments: seq<Assignment>, naming: Naming, moduleJumps: Jumps, m: nat,
                                   jumps: Jumps, scope: Scope)
    requires Sorted(assignments) && m <= |assignments| && scope != Module
    ensures var called := Computed(assignments, naming, moduleJumps, Module, FROM_NOTHING)[m];
            var sets := Computed(assignments, naming, jumps, scope, {called});
            RunsAreCovered(assignments, naming, jumps, scope, CallStarts(assignments, naming, moduleJumps, m)) <==>
            forall k :: 0 <= k <= |assignments| ==> sets[k] <= KnownAt(assignments, naming, scope, k)
  {
    hide KnownAt, MayHold, Computed, RunsAreCovered, CallStarts;
    ComputedIsAsLong(assignments, naming, moduleJumps, Module, FROM_NOTHING);
    var called := Computed(assignments, naming, moduleJumps, Module, FROM_NOTHING)[m];
    var starts := CallStarts(assignments, naming, moduleJumps, m);
    ComputedIsAsLong(assignments, naming, jumps, scope, {called});
    var sets := Computed(assignments, naming, jumps, scope, {called});
    ComputedIsDerived(assignments, naming, moduleJumps, Module, FROM_NOTHING, m);
    CallsAreEntered(assignments, naming, moduleJumps, m);
    forall k: nat | k <= |assignments|
      ensures sets[k] == MayHold(assignments, naming, jumps, scope, starts, k)
      ensures RunsAreCovered(assignments, naming, jumps, scope, starts) ==> sets[k] <= KnownAt(assignments, naming, scope, k)
    {
      ComputedIsDerived(assignments, naming, jumps, scope, {called}, k);
      StartsCanBeJoined(assignments, naming, jumps, scope, starts, called, k);
      if RunsAreCovered(assignments, naming, jumps, scope, starts) {
        CoveredIsHeld(assignments, naming, jumps, scope, starts, k);
      }
    }
    if forall k :: 0 <= k <= |assignments| ==> sets[k] <= KnownAt(assignments, naming, scope, k) {
      HeldIsCovered(assignments, naming, jumps, scope, starts);
    }
  }
}
