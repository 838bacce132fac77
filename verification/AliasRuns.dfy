/** Runs of a scope through its assignments, and the names that may hold
    platform-derived values on them. */
module AliasRuns {
  import opened AliasAnalysis
  import opened AliasValues

  // ---------------------------------------------------------------------- runs

  /** Control passes an assignment, which is executed or skipped. */
  datatype Visit = Visit(at: nat, executed: bool, value: Expr)

  /** Where control may go other than in source order: `back` from behind an
      assignment to the front of another one, as at the end of a loop's body;
      `out` from the front of an assignment that is not reached any more, as when
      a context manager swallows an exception. */
  datatype Jumps = Jumps(back: set<(nat, nat)>, out: set<(nat, nat)>)

  const NO_JUMPS := Jumps({}, {})

  predicate Allowed(a: Assignment, scope: Scope, v: Visit) {
    a.scope == scope ==> (a.BranchLocal() || v.executed) && (v.executed ==> Binds(a, v.value))
  }

  predicate Follows(jumps: Jumps, i: nat, k: nat) {
    k == i + 1 || (i, k) in jumps.back
  }

  /** The visit brings control in front of the `k`th assignment. */
  predicate Leads(jumps: Jumps, a: Assignment, scope: Scope, v: Visit, k: nat) {
    || (Follows(jumps, v.at, k) && Allowed(a, scope, v))
    || ((v.at, k) in jumps.out && !v.executed)
  }

  /** The run has brought control of the scope in front of the `k`th assignment:
      it executes the straight-line assignments it passes and some branch-local
      ones. */
  predicate IsRun(assignments: seq<Assignment>, jumps: Jumps, scope: Scope, run: seq<Visit>, k: nat) {
    if run == [] then k == 0
    else
      var v := run[|run| - 1];
      && v.at < |assignments| && k <= |assignments| && Leads(jumps, assignments[v.at], scope, v, k)
      && IsRun(assignments, jumps, scope, run[..|run| - 1], v.at)
  }

  /** The names bound to platform-derived values behind an executed assignment. */
  function Effect(a: Assignment, naming: Naming, v: Expr, before: set<string>): set<string> {
    before - BoundNames(a) + set n | n in BoundNames(a) && Platformish(ValueOf(a, v, n), before, naming)
  }

  /** The names bound to platform-derived values at the end of the run. */
  function Derived(assignments: seq<Assignment>, naming: Naming, scope: Scope, run: seq<Visit>, initial: set<string>)
    : set<string>
  {
    if run == [] then initial
    else
      var v := run[|run| - 1];
      var before := Derived(assignments, naming, scope, run[..|run| - 1], initial);
      if v.at < |assignments| && assignments[v.at].scope == scope && v.executed
      then Effect(assignments[v.at], naming, v.value, before)
      else before
  }

  lemma RunExtends(assignments: seq<Assignment>, jumps: Jumps, scope: Scope, run: seq<Visit>, v: Visit, k: nat)
    requires IsRun(assignments, jumps, scope, run, v.at) && v.at < |assignments| && k <= |assignments|
    requires Leads(jumps, assignments[v.at], scope, v, k)
    ensures IsRun(assignments, jumps, scope, run + [v], k)
    ensures (run + [v])[..|run|] == run
  {
    hide Leads;
    assert (run + [v])[..|run|] == run;
  }

  /** The run that executes what it must and skips the rest. */
  lemma {:induction false} StraightRun(assignments: seq<Assignment>, jumps: Jumps, scope: Scope, k: nat)
    returns (run: seq<Visit>)
    requires k <= |assignments|
    ensures IsRun(assignments, jumps, scope, run, k)
  {
    if k == 0 {
      run := [];
    } else {
      run := StraightRun(assignments, jumps, scope, k - 1);
      var a := assignments[k - 1];
      var r := SomeEvaluation(a.value);
      var v := Visit(k - 1, !a.BranchLocal(), r);
      RunExtends(assignments, jumps, scope, run, v, k);
      run := run + [v];
    }
  }

  // ------------------------------------------------------- what runs may derive

  /** The sets of names that hold platform-derived values when the scope is
      entered, one for each way it may be entered. */
  type Starts = set<set<string>>

  ghost predicate Derives(assignments: seq<Assignment>, naming: Naming, jumps: Jumps, scope: Scope, starts: Starts,
                          k: nat, name: string)
  {
    exists run, initial :: initial in starts && IsRun(assignments, jumps, scope, run, k)
      && name in Derived(assignments, naming, scope, run, initial)
  }

  function AllBound(assignments: seq<Assignment>): set<string> {
    set i, n | 0 <= i < |assignments| && n in BoundNames(assignments[i]) :: n
  }

  function AllNames(assignments: seq<Assignment>, starts: Starts): set<string> {
    AllBound(assignments) + set s, n | s in starts && n in s :: n
  }

  /** The names that some run brings to the front of the `k`th assignment with a
      platform-derived value. */
  ghost function MayHold(assignments: seq<Assignment>, naming: Naming, jumps: Jumps, scope: Scope, starts: Starts, k: nat)
    : set<string>
  {
    set n | n in AllNames(assignments, starts) && Derives(assignments, naming, jumps, scope, starts, k, n)
  }

  /** The names that may hold such values behind an assignment when `may` may in
      front of it. */
  function After(a: Assignment, naming: Naming, scope: Scope, may: set<string>): set<string> {
    if a.scope != scope then may
    else
      (set n | n in may && (a.BranchLocal() || n !in BoundNames(a)))
      + (set n | n in BoundNames(a) && CanBind(a, n, may, naming))
  }

  lemma {:induction false} DerivedIsNamed(assignments: seq<Assignment>, naming: Naming, scope: Scope, run: seq<Visit>,
                                          initial: set<string>, starts: Starts)
    requires initial in starts
    ensures Derived(assignments, naming, scope, run, initial) <= AllNames(assignments, starts)
  {
    hide Platformish, Bound;
    if run != [] {
      DerivedIsNamed(assignments, naming, scope, run[..|run| - 1], initial, starts);
    }
  }

  lemma MayHoldIsDerived(assignments: seq<Assignment>, naming: Naming, jumps: Jumps, scope: Scope, starts: Starts,
                         k: nat, name: string)
    ensures name in MayHold(assignments, naming, jumps, scope, starts, k) <==>
            Derives(assignments, naming, jumps, scope, starts, k, name)
  {
    hide AllNames, IsRun, Derived;
    if Derives(assignments, naming, jumps, scope, starts, k, name) {
      var run, initial :| initial in starts && IsRun(assignments, jumps, scope, run, k)
        && name in Derived(assignments, naming, scope, run, initial);
      DerivedIsNamed(assignments, naming, scope, run, initial, starts);
    }
  }

  /** One visit of a run stays within what may hold behind the assignment. */
  lemma EffectIsWithin(a: Assignment, naming: Naming, scope: Scope, v: Visit, before: set<string>, may: set<string>)
    requires Allowed(a, scope, v) && before <= may
    ensures (if a.scope == scope && v.executed then Effect(a, naming, v.value, before) else before) <=
            After(a, naming, scope, may)
  {
    hide Platformish, CanBind, BoundNames, Binds, ValueOf;
    if a.scope == scope && v.executed {
      forall n | n in Effect(a, naming, v.value, before)
        ensures n in After(a, naming, scope, may)
      {
        if n in BoundNames(a) {
          PlatformishIsMonotone(ValueOf(a, v.value, n), before, may, naming);
          CanBindExactly(a, n, may, naming);
        }
      }
    }
  }

  /** What may hold behind an assignment is derived there by some run. */
  lemma AfterIsDerived(assignments: seq<Assignment>, naming: Naming, jumps: Jumps, scope: Scope, starts: Starts,
                       i: nat, k: nat, name: string)
    requires starts != {} && i < |assignments| && k <= |assignments| && Follows(jumps, i, k)
    requires name in After(assignments[i], naming, scope, MayHold(assignments, naming, jumps, scope, starts, i))
    ensures Derives(assignments, naming, jumps, scope, starts, k, name)
  {
    hide Platformish, CanBind, BoundNames, Binds, ValueOf, IsRun, MayHold, Follows, Derives;
    var a := assignments[i];
    var may := MayHold(assignments, naming, jumps, scope, starts, i);
    if a.scope == scope && name in BoundNames(a) && CanBind(a, name, may, naming) {
      var value, support := PlatformBinding(a, name, may, naming);
      var run, initial := SupportingRun(assignments, naming, jumps, scope, starts, i, support);
      var before := Derived(assignments, naming, scope, run, initial);
      PlatformishIsMonotone(ValueOf(a, value, name), support, before, naming);
      ExtendedRunDerives(assignments, naming, jumps, scope, starts, run, initial, Visit(i, true, value), k, name);
    } else {
      var run, initial := SupportingRun(assignments, naming, jumps, scope, starts, i, {name});
      var value := SomeBinding(a);
      var v := Visit(i, a.scope == scope && !a.BranchLocal(), value);
      ExtendedRunDerives(assignments, naming, jumps, scope, starts, run, initial, v, k, name);
    }
  }

  /** What may hold in front of an assignment may hold where control leaves to. */
  lemma LeftIsDerived(assignments: seq<Assignment>, naming: Naming, jumps: Jumps, scope: Scope, starts: Starts,
                      i: nat, k: nat, name: string)
    requires starts != {} && i < |assignments| && k <= |assignments| && (i, k) in jumps.out
    requires name in MayHold(assignments, naming, jumps, scope, starts, i)
    ensures Derives(assignments, naming, jumps, scope, starts, k, name)
  {
    hide BoundNames, Binds, IsRun, MayHold, Derives, Effect;
    var run, initial := SupportingRun(assignments, naming, jumps, scope, starts, i, {name});
    var v := Visit(i, false, assignments[i].value);
    ExtendedRunDerives(assignments, naming, jumps, scope, starts, run, initial, v, k, name);
  }

  /** A straight-line assignment binds some value. */
  lemma SomeBinding(a: Assignment) returns (v: Expr)
    ensures !a.BranchLocal() ==> Binds(a, v)
  {
    v := SomeEvaluation(a.value);
  }

  lemma ExtendedRunDerives(assignments: seq<Assignment>, naming: Naming, jumps: Jumps, scope: Scope, starts: Starts,
                           run: seq<Visit>, initial: set<string>, v: Visit, k: nat, name: string)
    requires initial in starts && IsRun(assignments, jumps, scope, run, v.at)
    requires v.at < |assignments| && k <= |assignments| && Leads(jumps, assignments[v.at], scope, v, k)
    requires var before := Derived(assignments, naming, scope, run, initial);
             name in if assignments[v.at].scope == scope && v.executed
                     then Effect(assignments[v.at], naming, v.value, before) else before
    ensures Derives(assignments, naming, jumps, scope, starts, k, name)
  {
    hide Effect, Leads, IsRun;
    RunExtends(assignments, jumps, scope, run, v, k);
    assert name in Derived(assignments, naming, scope, run + [v], initial);
  }

  /** One name at most has a run that derives it; a single alias is enough for
      every platform-derived value. */
  lemma SupportingRun(assignments: seq<Assignment>, naming: Naming, jumps: Jumps, scope: Scope, starts: Starts,
                      k: nat, support: set<string>) returns (run: seq<Visit>, initial: set<string>)
    requires starts != {} && k <= |assignments|
    requires Support(support, MayHold(assignments, naming, jumps, scope, starts, k))
    ensures initial in starts && IsRun(assignments, jumps, scope, run, k)
    ensures support <= Derived(assignments, naming, scope, run, initial)
  {
    hide IsRun, Derived, MayHold;
    if support == {} {
      run := StraightRun(assignments, jumps, scope, k);
      initial :| initial in starts;
    } else {
      var alias :| alias in support;
      MayHoldIsDerived(assignments, naming, jumps, scope, starts, k, alias);
      run, initial :| initial in starts && IsRun(assignments, jumps, scope, run, k)
        && alias in Derived(assignments, naming, scope, run, initial);
      assert support == {alias};
    }
  }

  // -------------------------------------------------------- flow equations

  /** Sets of names, one in front of each assignment and one behind the last,
      that every start, every assignment and every jump respects. */
  predicate Solves(assignments: seq<Assignment>, naming: Naming, jumps: Jumps, scope: Scope, starts: Starts,
                   sets: seq<set<string>>)
  {
    && |sets| == |assignments| + 1
    && (forall initial :: initial in starts ==> initial <= sets[0])
    && (forall i :: 0 <= i < |assignments| ==> After(assignments[i], naming, scope, sets[i]) <= sets[i + 1])
    && (forall i, k :: 0 <= i < |assignments| && 0 <= k <= |assignments| && (i, k) in jumps.back ==>
          After(assignments[i], naming, scope, sets[i]) <= sets[k])
    && (forall i, k :: 0 <= i < |assignments| && 0 <= k <= |assignments| && (i, k) in jumps.out ==> sets[i] <= sets[k])
  }

  lemma {:induction false} SolutionsBoundRuns(assignments: seq<Assignment>, naming: Naming, jumps: Jumps, scope: Scope,
                                              starts: Starts, sets: seq<set<string>>, run: seq<Visit>,
                                              initial: set<string>, k: nat)
    requires Solves(assignments, naming, jumps, scope, starts, sets)
    requires initial in starts && k <= |assignments| && IsRun(assignments, jumps, scope, run, k)
    ensures Derived(assignments, naming, scope, run, initial) <= sets[k]
    decreases |run|
  {
    hide After, Effect, Allowed;
    if run != [] {
      var v := run[|run| - 1];
      var front := run[..|run| - 1];
      SolutionsBoundRuns(assignments, naming, jumps, scope, starts, sets, front, initial, v.at);
      if Follows(jumps, v.at, k) && Allowed(assignments[v.at], scope, v) {
        EffectIsWithin(assignments[v.at], naming, scope, v, Derived(assignments, naming, scope, front, initial), sets[v.at]);
      }
    }
  }

  ghost function MayHoldEverywhere(assignments: seq<Assignment>, naming: Naming, jumps: Jumps, scope: Scope, starts: Starts)
    : (sets: seq<set<string>>)
    ensures |sets| == |assignments| + 1
    ensures forall k :: 0 <= k < |sets| ==> sets[k] == MayHold(assignments, naming, jumps, scope, starts, k)
  {
    seq(|assignments| + 1, k requires 0 <= k => MayHold(assignments, naming, jumps, scope, starts, k))
  }

  /** The names that runs derive are the least solution of the flow equations. */
  lemma MayHoldIsLeastSolution(assignments: seq<Assignment>, naming: Naming, jumps: Jumps, scope: Scope, starts: Starts)
    requires starts != {}
    ensures var least := MayHoldEverywhere(assignments, naming, jumps, scope, starts);
            && Solves(assignments, naming, jumps, scope, starts, least)
            && forall sets :: Solves(assignments, naming, jumps, scope, starts, sets) ==>
                 forall k :: 0 <= k < |sets| ==> least[k] <= sets[k]
  {
    hide After, MayHold, Derived, IsRun, Derives;
    var least := MayHoldEverywhere(assignments, naming, jumps, scope, starts);
    MayHoldSolves(assignments, naming, jumps, scope, starts);
    forall sets, k | Solves(assignments, naming, jumps, scope, starts, sets) && 0 <= k < |sets|
      ensures least[k] <= sets[k]
    {
      MayHoldIsWithin(assignments, naming, jumps, scope, starts, sets, k);
    }
  }

  lemma MayHoldSolves(assignments: seq<Assignment>, naming: Naming, jumps: Jumps, scope: Scope, starts: Starts)
    requires starts != {}
    ensures Solves(assignments, naming, jumps, scope, starts, MayHoldEverywhere(assignments, naming, jumps, scope, starts))
  {
    hide After, MayHold, Derives;
    var least := MayHoldEverywhere(assignments, naming, jumps, scope, starts);
    forall initial, n | initial in starts && n in initial
      ensures n in least[0]
    {
      StartIsDerived(assignments, naming, jumps, scope, starts, initial, n);
      MayHoldIsDerived(assignments, naming, jumps, scope, starts, 0, n);
    }
    forall i, k | 0 <= i < |assignments| && 0 <= k <= |assignments| && Follows(jumps, i, k)
      ensures After(assignments[i], naming, scope, least[i]) <= least[k]
    {
      forall n | n in After(assignments[i], naming, scope, least[i])
        ensures n in least[k]
      {
        AfterIsDerived(assignments, naming, jumps, scope, starts, i, k, n);
        MayHoldIsDerived(assignments, naming, jumps, scope, starts, k, n);
      }
    }
    forall i, k, n | 0 <= i < |assignments| && 0 <= k <= |assignments| && (i, k) in jumps.out && n in least[i]
      ensures n in least[k]
    {
      LeftIsDerived(assignments, naming, jumps, scope, starts, i, k, n);
      MayHoldIsDerived(assignments, naming, jumps, scope, starts, k, n);
    }
  }

  lemma StartIsDerived(assignments: seq<Assignment>, naming: Naming, jumps: Jumps, scope: Scope, starts: Starts,
                       initial: set<string>, name: string)
    requires initial in starts && name in initial
    ensures Derives(assignments, naming, jumps, scope, starts, 0, name)
  {
    assert IsRun(assignments, jumps, scope, [], 0) && name in Derived(assignments, naming, scope, [], initial);
  }

  lemma MayHoldIsWithin(assignments: seq<Assignment>, naming: Naming, jumps: Jumps, scope: Scope, starts: Starts,
                        sets: seq<set<string>>, k: nat)
    requires Solves(assignments, naming, jumps, scope, starts, sets) && k < |sets|
    ensures MayHold(assignments, naming, jumps, scope, starts, k) <= sets[k]
  {
    hide Derived, IsRun, MayHold;
    forall n | n in MayHold(assignments, naming, jumps, scope, starts, k)
      ensures n in sets[k]
    {
      MayHoldIsDerived(assignments, naming, jumps, scope, starts, k, n);
      var run, initial :| initial in starts && IsRun(assignments, jumps, scope, run, k)
        && n in Derived(assignments, naming, scope, run, initial);
      SolutionsBoundRuns(assignments, naming, jumps, scope, starts, sets, run, initial, k);
    }
  }
}
