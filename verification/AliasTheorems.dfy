/** What the alias analysis promises about the runs of a scope, and exactly when
    it keeps the promise. */
module AliasTheorems {
  import opened AliasResolve
  import opened AliasAnalysis
  import opened AliasValues
  import opened AliasRuns

  // ------------------------------------------------------------------ knowledge

  /** What a scope knows about a name once all recorded events have happened,
      starting from `base`. */
  predicate Knows(h: Histories, scope: Scope, name: string, base: bool) {
    Resolve(base, EventsOf(h, scope, name), Or)
  }

  lemma {:induction false} ResolveAfterFirst(events: seq<Event<bool>>, first: Event<bool>)
    requires !first.branchLocal
    ensures Resolve(false, [first] + events, Or) == Resolve(first.value, events, Or)
  {
    if events == [] {
      assert [first] + events == [first];
    } else {
      var n := |events| - 1;
      assert ([first] + events)[..n + 1] == [first] + events[..n];
      ResolveAfterFirst(events[..n], first);
    }
  }

  lemma VisibleAfterFirst(events: seq<Event<bool>>, first: Event<bool>, p: Position)
    requires Before(first.at, p)
    ensures Visible([first] + events, p) == [first] + Visible(events, p)
  {
    assert ([first] + events)[1..] == events;
  }

  /** A function resolves its events from what the module knows. */
  lemma InheritedKnowledge(h: Histories, scope: Scope, name: string, p: Position)
    requires Before(Position(-1, -1), p)
    ensures name in Materialize(h, scope, p) <==>
            Resolve(scope != Module && ModuleKnows(h, name), Visible(EventsOf(h, scope, name), p), Or)
  {
    hide Before;
    var local := EventsOf(h, scope, name);
    var known := Visible(local, p);
    if scope != Module && ModuleKnows(h, name) {
      var first := Event(Position(-1, -1), true, false);
      VisibleAfterFirst(local, first, p);
      ResolveAfterFirst(known, first);
      assert name in NamesIn(h, Module) by { hide Before, Visible; ModuleKnowledgeNeedsEvents(h, name); }
    } else {
      assert InheritedEvents(h, scope, name) == local;
      assert local == [] ==> known == [];
      assert Resolve(false, known, Or) ==> name in NamesIn(h, scope);
    }
  }

  lemma ModuleKnowledgeNeedsEvents(h: Histories, name: string)
    requires ModuleKnows(h, name)
    ensures name in NamesIn(h, Module)
  {
  }

  /** Behind all assignments in front of it, a position sees what the scope
      knows, starting for a function from what the module knows. */
  lemma MaterializedIsKnown(assignments: seq<Assignment>, naming: Naming, k: nat, scope: Scope, p: Position, name: string)
    requires Sorted(assignments) && k <= |assignments| && Before(Position(-1, -1), p)
    requires forall i :: 0 <= i < |assignments| ==> (Before(assignments[i].at, p) <==> i < k)
    ensures var h := HistoriesOf(assignments, naming);
            var base := scope != Module && Knows(h, Module, name, false);
            && ModuleKnows(h, name) == Knows(h, Module, name, false)
            && (name in Materialize(h, scope, p) <==>
                Knows(HistoriesOf(assignments[..k], naming), scope, name, base))
  {
    hide HistoriesOf, Materialize, EventsOf, Visible, Resolve;
    EventsAreVisible(assignments, naming, Module, name, LAST);
    VisibleIsPrefix(assignments, naming, k, scope, name, p);
    InheritedKnowledge(HistoriesOf(assignments, naming), scope, name, p);
  }

  /** The assignments in front of the last one are all the builder knows when
      it judges the last one. */
  lemma PrefixIsKnown(assignments: seq<Assignment>, naming: Naming, scope: Scope, name: string)
    requires Sorted(assignments) && assignments != []
    ensures var n := |assignments| - 1;
            var h := HistoriesOf(assignments[..n], naming);
            name in Materialize(h, scope, assignments[n].at) <==>
            Knows(h, scope, name, scope != Module && Knows(h, Module, name, false))
  {
    hide HistoriesOf, Materialize;
    var n := |assignments| - 1;
    var before := assignments[..n];
    assert before[..n] == before;
    MaterializedIsKnown(before, naming, n, scope, assignments[n].at, name);
  }

  lemma NoEventsAtFirst(naming: Naming)
    ensures forall scope, name :: EventsOf(HistoriesOf([], naming), scope, name) == []
  {
  }

  // --------------------------------------------------- what is known, step by step

  /** `k` assignments stand in front of the position. */
  predicate InFront(assignments: seq<Assignment>, k: nat, p: Position) {
    && k <= |assignments|
    && Before(Position(-1, -1), p)
    && forall i :: 0 <= i < |assignments| ==> (Before(assignments[i].at, p) <==> i < k)
  }

  function Front(assignments: seq<Assignment>, k: nat): Position {
    if k < |assignments| then assignments[k].at else LAST
  }

  /** The analysis' answer in front of the `k`th assignment. */
  function KnownAt(assignments: seq<Assignment>, naming: Naming, scope: Scope, k: nat): set<string> {
    Materialize(HistoriesOf(assignments, naming), scope, Front(assignments, k))
  }

  /** What the builder knew when it judged the `i`th assignment. */
  function BuilderKnew(assignments: seq<Assignment>, naming: Naming, i: nat): set<string>
    requires i < |assignments|
  {
    Materialize(HistoriesOf(assignments[..i], naming), assignments[i].scope, assignments[i].at)
  }

  /** The judgement it recorded. */
  predicate Recorded(assignments: seq<Assignment>, naming: Naming, i: nat)
    requires i < |assignments|
  {
    Platformish(assignments[i].value, BuilderKnew(assignments, naming, i), naming)
  }

  /** The aliases the finished module leaves to functions. */
  function FinalAliases(assignments: seq<Assignment>, naming: Naming): set<string> {
    Materialize(HistoriesOf(assignments, naming), Module, LAST)
  }

  lemma FrontIsInFront(assignments: seq<Assignment>, k: nat)
    requires Sorted(assignments) && k <= |assignments|
    ensures InFront(assignments, k, Front(assignments, k))
  {
  }

  /** All positions with the same assignments in front get the same answer. */
  lemma PositionsAgree(assignments: seq<Assignment>, naming: Naming, scope: Scope, k: nat, p: Position)
    requires Sorted(assignments) && InFront(assignments, k, p)
    ensures Materialize(HistoriesOf(assignments, naming), scope, p) == KnownAt(assignments, naming, scope, k)
  {
    hide HistoriesOf, Materialize, Knows, Front;
    FrontIsInFront(assignments, k);
    var h := HistoriesOf(assignments, naming);
    forall n
      ensures n in Materialize(h, scope, p) <==> n in KnownAt(assignments, naming, scope, k)
    {
      MaterializedIsKnown(assignments, naming, k, scope, p, n);
      MaterializedIsKnown(assignments, naming, k, scope, Front(assignments, k), n);
    }
  }

  lemma FinalAliasIsKnown(assignments: seq<Assignment>, naming: Naming, name: string)
    requires Sorted(assignments)
    ensures name in FinalAliases(assignments, naming) <==>
            Knows(HistoriesOf(assignments, naming), Module, name, false)
  {
    hide HistoriesOf, Materialize;
    assert assignments[..|assignments|] == assignments;
    MaterializedIsKnown(assignments, naming, |assignments|, Module, LAST, name);
  }

  /** A module starts from nothing, a function from all final aliases. */
  lemma KnownAtFirst(assignments: seq<Assignment>, naming: Naming, scope: Scope)
    requires Sorted(assignments)
    ensures KnownAt(assignments, naming, scope, 0) ==
            if scope == Module then {} else FinalAliases(assignments, naming)
  {
    hide HistoriesOf, Materialize, FinalAliases, Front;
    FrontIsInFront(assignments, 0);
    NoEventsAtFirst(naming);
    forall n
      ensures n in KnownAt(assignments, naming, scope, 0) <==>
              scope != Module && n in FinalAliases(assignments, naming)
    {
      MaterializedIsKnown(assignments, naming, 0, scope, Front(assignments, 0), n);
      FinalAliasIsKnown(assignments, naming, n);
      assert assignments[..0] == [];
    }
  }

  /** Whether the analysis knows a name behind an assignment of the scope that
      may bind it, by what was recorded there. */
  predicate Kept(assignments: seq<Assignment>, naming: Naming, scope: Scope, i: nat, name: string)
    requires i < |assignments|
  {
    var a := assignments[i];
    if a.scope == scope && name in a.Names()
    then Recorded(assignments, naming, i) || (a.BranchLocal() && name in KnownAt(assignments, naming, scope, i))
    else name in KnownAt(assignments, naming, scope, i)
  }

  lemma KnownStep(assignments: seq<Assignment>, naming: Naming, scope: Scope, i: nat, name: string)
    requires Sorted(assignments) && i < |assignments|
    ensures name in KnownAt(assignments, naming, scope, i + 1) <==> Kept(assignments, naming, scope, i, name)
  {
    hide HistoriesOf, Materialize, Platformish, Front;
    FrontIsInFront(assignments, i);
    FrontIsInFront(assignments, i + 1);
    MaterializedIsKnown(assignments, naming, i, scope, Front(assignments, i), name);
    MaterializedIsKnown(assignments, naming, i + 1, scope, Front(assignments, i + 1), name);
    var front := assignments[..i + 1];
    assert front[..i] == assignments[..i];
    var base := scope != Module && Knows(HistoriesOf(assignments, naming), Module, name, false);
    KnowledgeAfter(front, naming, scope, name, base);
  }

  /** At module level the builder knows what the analysis answers later. */
  lemma BuilderKnowsTheModule(assignments: seq<Assignment>, naming: Naming, i: nat)
    requires Sorted(assignments) && i < |assignments| && assignments[i].scope == Module
    ensures BuilderKnew(assignments, naming, i) == KnownAt(assignments, naming, Module, i)
  {
    hide HistoriesOf, Materialize;
    FrontIsInFront(assignments, i);
    var front := assignments[..i + 1];
    assert front[..i] == assignments[..i];
    forall n
      ensures n in BuilderKnew(assignments, naming, i) <==> n in KnownAt(assignments, naming, Module, i)
    {
      PrefixIsKnown(front, naming, Module, n);
      MaterializedIsKnown(assignments, naming, i, Module, assignments[i].at, n);
    }
  }

  // -------------------------------------------------------------------- soundness

  /** Wherever a run of the scope stands, the analysis knows all names that hold
      platform-derived values there. */
  ghost predicate RunsAreCovered(assignments: seq<Assignment>, naming: Naming, jumps: Jumps, scope: Scope, starts: Starts) {
    forall k, p, run, initial ::
      InFront(assignments, k, p) && IsRun(assignments, jumps, scope, run, k) && initial in starts ==>
        Derived(assignments, naming, scope, run, initial) <= Materialize(HistoriesOf(assignments, naming), scope, p)
  }

  /** The analysis knows what the scope is entered with. */
  predicate StartsAreKnown(assignments: seq<Assignment>, naming: Naming, scope: Scope, starts: Starts) {
    forall initial :: initial in starts ==> initial <= KnownAt(assignments, naming, scope, 0)
  }

  /** Where an assignment can bind a name to a platform-derived value, that was
      recorded, or the name is known already and not overwritten. */
  ghost predicate BindingsAreKept(assignments: seq<Assignment>, naming: Naming, jumps: Jumps, scope: Scope, starts: Starts) {
    forall i, n :: 0 <= i < |assignments| && assignments[i].scope == scope && n in BoundNames(assignments[i]) ==>
      (CanBind(assignments[i], n, MayHold(assignments, naming, jumps, scope, starts, i), naming) ==>
         Kept(assignments, naming, scope, i, n))
  }

  /** Nothing that may hold behind a loop's body is unknown at the loop's start. */
  ghost predicate JumpsAreKnown(assignments: seq<Assignment>, naming: Naming, jumps: Jumps, scope: Scope, starts: Starts) {
    forall i, k :: 0 <= i < |assignments| && 0 <= k <= |assignments| && (i, k) in jumps.back ==>
      After(assignments[i], naming, scope, MayHold(assignments, naming, jumps, scope, starts, i)) <=
      KnownAt(assignments, naming, scope, k)
  }

  /** Nothing that may hold where control may leave is unknown where it goes. */
  ghost predicate LeavesAreKnown(assignments: seq<Assignment>, naming: Naming, jumps: Jumps, scope: Scope, starts: Starts) {
    forall i, k :: 0 <= i < |assignments| && 0 <= k <= |assignments| && (i, k) in jumps.out ==>
      MayHold(assignments, naming, jumps, scope, starts, i) <= KnownAt(assignments, naming, scope, k)
  }

  lemma {:induction false} CoveredRun(assignments: seq<Assignment>, naming: Naming, jumps: Jumps, scope: Scope,
                                      starts: Starts, run: seq<Visit>, initial: set<string>, k: nat)
    requires Sorted(assignments) && StartsAreKnown(assignments, naming, scope, starts)
    requires BindingsAreKept(assignments, naming, jumps, scope, starts)
    requires JumpsAreKnown(assignments, naming, jumps, scope, starts)
    requires LeavesAreKnown(assignments, naming, jumps, scope, starts)
    requires initial in starts && k <= |assignments| && IsRun(assignments, jumps, scope, run, k)
    ensures Derived(assignments, naming, scope, run, initial) <= KnownAt(assignments, naming, scope, k)
    decreases |run|
  {
    hide Platformish, CanBind, KnownAt, Kept, MayHold, After, Effect, Allowed, BoundNames, Recorded;
    if run != [] {
      var v := run[|run| - 1];
      var front := run[..|run| - 1];
      var a := assignments[v.at];
      var before := Derived(assignments, naming, scope, front, initial);
      var may := MayHold(assignments, naming, jumps, scope, starts, v.at);
      CoveredRun(assignments, naming, jumps, scope, starts, front, initial, v.at);
      RunIsWithinMayHold(assignments, naming, jumps, scope, starts, front, initial, v.at);
      if Follows(jumps, v.at, k) && Allowed(a, scope, v) {
        EffectIsWithin(a, naming, scope, v, before, may);
        if (v.at, k) !in jumps.back {
          forall n | n in Derived(assignments, naming, scope, run, initial)
            ensures n in KnownAt(assignments, naming, scope, k)
          {
            KnownStep(assignments, naming, scope, v.at, n);
            VisitKeeps(assignments, naming, scope, v, before, may, n);
          }
        }
      }
    }
  }

  lemma RunIsWithinMayHold(assignments: seq<Assignment>, naming: Naming, jumps: Jumps, scope: Scope, starts: Starts,
                           run: seq<Visit>, initial: set<string>, k: nat)
    requires initial in starts && IsRun(assignments, jumps, scope, run, k)
    ensures Derived(assignments, naming, scope, run, initial) <=
            MayHold(assignments, naming, jumps, scope, starts, k)
  {
    hide IsRun, Derived, MayHold;
    forall n | n in Derived(assignments, naming, scope, run, initial)
      ensures n in MayHold(assignments, naming, jumps, scope, starts, k)
    {
      MayHoldIsDerived(assignments, naming, jumps, scope, starts, k, n);
    }
  }

  lemma VisitKeeps(assignments: seq<Assignment>, naming: Naming, scope: Scope, v: Visit, before: set<string>,
                   may: set<string>, name: string)
    requires v.at < |assignments| && Allowed(assignments[v.at], scope, v)
    requires before <= may && before <= KnownAt(assignments, naming, scope, v.at)
    requires var a := assignments[v.at];
             a.scope == scope && name in BoundNames(a) && CanBind(a, name, may, naming) ==>
             Kept(assignments, naming, scope, v.at, name)
    requires name in if assignments[v.at].scope == scope && v.executed
                     then Effect(assignments[v.at], naming, v.value, before) else before
    ensures Kept(assignments, naming, scope, v.at, name)
  {
    hide Platformish, CanBind, KnownAt, Recorded, Bound, Binds, ValueOf;
    var a := assignments[v.at];
    NamesAreBound(a);
    if a.scope == scope && v.executed && name in BoundNames(a) {
      PlatformishIsMonotone(ValueOf(a, v.value, name), before, may, naming);
      CanBindExactly(a, name, may, naming);
    }
  }

  lemma NamesAreBound(a: Assignment)
    ensures forall n :: n in a.Names() ==> n in BoundNames(a)
  {
    TargetsNamesAreBound(a.targets);
  }

  lemma {:induction false} TargetsNamesAreBound(ts: seq<Target>)
    ensures forall n :: n in TargetsNames(ts) ==> n in BoundByAny(ts)
  {
    if ts != [] {
      var last := |ts| - 1;
      TargetsNamesAreBound(ts[..last]);
      TargetNamesAreBound(ts[last]);
      assert forall n :: n in TargetNames(ts[last]) ==> n in Bound(ts[last]);
    }
  }

  lemma {:induction false} TargetNamesAreBound(t: Target)
    ensures forall n :: n in TargetNames(t) ==> n in Bound(t)
  {
    match t
    case TupleTarget(elts) => TargetsNamesAreBound(elts);
    case _ =>
  }

  /** The analysis is sound for a scope if and only if it knows the starts, the
      recorded events keep every binding, loops bring in nothing new, and nothing
      is left standing where control leaves early. */
  lemma SoundExactly(assignments: seq<Assignment>, naming: Naming, jumps: Jumps, scope: Scope, starts: Starts)
    requires Sorted(assignments) && starts != {}
    ensures RunsAreCovered(assignments, naming, jumps, scope, starts) <==>
            && StartsAreKnown(assignments, naming, scope, starts)
            && BindingsAreKept(assignments, naming, jumps, scope, starts)
            && JumpsAreKnown(assignments, naming, jumps, scope, starts)
            && LeavesAreKnown(assignments, naming, jumps, scope, starts)
  {
    hide *;
    if RunsAreCovered(assignments, naming, jumps, scope, starts) {
      CoveredMeansKept(assignments, naming, jumps, scope, starts);
    }
    if && StartsAreKnown(assignments, naming, scope, starts)
       && BindingsAreKept(assignments, naming, jumps, scope, starts)
       && JumpsAreKnown(assignments, naming, jumps, scope, starts)
       && LeavesAreKnown(assignments, naming, jumps, scope, starts) {
      KeptMeansCovered(assignments, naming, jumps, scope, starts);
    }
  }

  lemma KeptMeansCovered(assignments: seq<Assignment>, naming: Naming, jumps: Jumps, scope: Scope, starts: Starts)
    requires Sorted(assignments) && StartsAreKnown(assignments, naming, scope, starts)
    requires BindingsAreKept(assignments, naming, jumps, scope, starts)
    requires JumpsAreKnown(assignments, naming, jumps, scope, starts)
    requires LeavesAreKnown(assignments, naming, jumps, scope, starts)
    ensures RunsAreCovered(assignments, naming, jumps, scope, starts)
  {
    hide StartsAreKnown, BindingsAreKept, JumpsAreKnown, LeavesAreKnown, IsRun, Derived, Materialize, KnownAt;
    forall k, p, run, initial |
      InFront(assignments, k, p) && IsRun(assignments, jumps, scope, run, k) && initial in starts
      ensures Derived(assignments, naming, scope, run, initial) <= Materialize(HistoriesOf(assignments, naming), scope, p)
    {
      PositionsAgree(assignments, naming, scope, k, p);
      CoveredRun(assignments, naming, jumps, scope, starts, run, initial, k);
    }
  }

  lemma CoveredMeansKept(assignments: seq<Assignment>, naming: Naming, jumps: Jumps, scope: Scope, starts: Starts)
    requires Sorted(assignments) && starts != {} && RunsAreCovered(assignments, naming, jumps, scope, starts)
    ensures StartsAreKnown(assignments, naming, scope, starts)
    ensures BindingsAreKept(assignments, naming, jumps, scope, starts)
    ensures JumpsAreKnown(assignments, naming, jumps, scope, starts)
    ensures LeavesAreKnown(assignments, naming, jumps, scope, starts)
  {
    hide CanBind, Kept, MayHold, After, BoundNames, KnownAt, RunsAreCovered, Derives;
    forall initial, n | initial in starts && n in initial
      ensures n in KnownAt(assignments, naming, scope, 0)
    {
      StartIsDerived(assignments, naming, jumps, scope, starts, initial, n);
      DerivedIsCovered(assignments, naming, jumps, scope, starts, 0, n);
    }
    forall i, k, n | 0 <= i < |assignments| && 0 <= k <= |assignments| && Follows(jumps, i, k)
      && n in After(assignments[i], naming, scope, MayHold(assignments, naming, jumps, scope, starts, i))
      ensures n in KnownAt(assignments, naming, scope, k)
    {
      AfterIsDerived(assignments, naming, jumps, scope, starts, i, k, n);
      DerivedIsCovered(assignments, naming, jumps, scope, starts, k, n);
    }
    forall i, k, n | 0 <= i < |assignments| && 0 <= k <= |assignments| && (i, k) in jumps.out
      && n in MayHold(assignments, naming, jumps, scope, starts, i)
      ensures n in KnownAt(assignments, naming, scope, k)
    {
      LeftIsDerived(assignments, naming, jumps, scope, starts, i, k, n);
      DerivedIsCovered(assignments, naming, jumps, scope, starts, k, n);
    }
    forall i, n | 0 <= i < |assignments| && assignments[i].scope == scope && n in BoundNames(assignments[i])
      && CanBind(assignments[i], n, MayHold(assignments, naming, jumps, scope, starts, i), naming)
      ensures Kept(assignments, naming, scope, i, n)
    {
      BoundIsAfter(assignments[i], naming, MayHold(assignments, naming, jumps, scope, starts, i), n);
      assert Follows(jumps, i, i + 1);
      KnownStep(assignments, naming, scope, i, n);
    }
  }

  lemma BoundIsAfter(a: Assignment, naming: Naming, may: set<string>, name: string)
    requires name in BoundNames(a) && CanBind(a, name, may, naming)
    ensures name in After(a, naming, a.scope, may)
  {
  }

  lemma DerivedIsCovered(assignments: seq<Assignment>, naming: Naming, jumps: Jumps, scope: Scope, starts: Starts,
                         k: nat, name: string)
    requires Sorted(assignments) && k <= |assignments| && RunsAreCovered(assignments, naming, jumps, scope, starts)
    requires Derives(assignments, naming, jumps, scope, starts, k, name)
    ensures name in KnownAt(assignments, naming, scope, k)
  {
    hide IsRun, Derived, Materialize, InFront, Front;
    FrontIsInFront(assignments, k);
    var run, initial :| initial in starts && IsRun(assignments, jumps, scope, run, k)
      && name in Derived(assignments, naming, scope, run, initial);
    assert InFront(assignments, k, Front(assignments, k));
  }

  // -------------------------------------------------------- where bindings are lost

  /** The only ways for a recorded name to be bound and not seen: a hidden
      getter, or an alias the builder did not know. */
  lemma LostBindingsAreExplained(assignments: seq<Assignment>, naming: Naming, i: nat, name: string, may: set<string>)
    requires i < |assignments| && name in BoundNames(assignments[i])
    requires CanBind(assignments[i], name, may, naming) && !Recorded(assignments, naming, i)
    ensures HidesGetter(assignments[i].value, naming) || !(may <= BuilderKnew(assignments, naming, i))
  {
    hide Platformish, HidesGetter, PartMayBePlatform, ItemMayBePlatform;
    var a := assignments[i];
    var t := a.targets[LastBinder(a.targets, name)];
    if !HidesGetter(a.value, naming) {
      if a.loop {
        ItemIsOfWhole(t, a.value, name, may, naming);
      } else {
        PartIsOfWhole(t, a.value, name, may, naming);
      }
      if may <= BuilderKnew(assignments, naming, i) {
        PlatformishIsMonotone(a.value, may, BuilderKnew(assignments, naming, i), naming);
      }
    }
  }

  lemma {:induction false} PartIsOfWhole(t: Target, e: Expr, name: string, aliases: set<string>, naming: Naming)
    requires name in Bound(t) && PartMayBePlatform(t, e, name, aliases, naming)
    ensures MayBePlatform(e, aliases, naming)
    decreases t, e
  {
    match t
    case NameTarget(_) =>
    case StarTarget(inner) => PartIsOfWhole(inner, e, name, aliases, naming);
    case TupleTarget(elts) =>
      match e {
        case Conditional(_, b, o) =>
          if PartMayBePlatform(t, b, name, aliases, naming) {
            PartIsOfWhole(t, b, name, aliases, naming);
          } else {
            PartIsOfWhole(t, o, name, aliases, naming);
          }
        case Walrus(_, w) => PartIsOfWhole(t, w, name, aliases, naming);
        case _ =>
          var i := LastBinder(elts, name);
          PartIsOfWhole(elts[i], Share(elts, e, i), name, aliases, naming);
          ShareIsOfWhole(elts, e, i, aliases, naming);
      }
  }

  lemma ShareIsOfWhole(ts: seq<Target>, e: Expr, i: nat, aliases: set<string>, naming: Naming)
    requires i < |ts| && MayBePlatform(Share(ts, e, i), aliases, naming)
    ensures MayBePlatform(e, aliases, naming)
  {
    if IsDisplay(e) && Fits(ts, |e.elts|) && !HasStar(ts[..i]) && ts[i].StarTarget? {
      var share := Share(ts, e, i);
      var j :| 0 <= j < |share.elts| && MayBePlatform(share.elts[j], aliases, naming);
      assert share.elts[j] == e.elts[i + j];
    }
  }

  lemma {:induction false} ItemIsOfWhole(t: Target, e: Expr, name: string, aliases: set<string>, naming: Naming)
    requires name in Bound(t) && ItemMayBePlatform(t, e, name, aliases, naming)
    ensures MayBePlatform(e, aliases, naming)
  {
    hide PartMayBePlatform;
    match e
    case Conditional(_, b, o) =>
      if ItemMayBePlatform(t, b, name, aliases, naming) {
        ItemIsOfWhole(t, b, name, aliases, naming);
      } else {
        ItemIsOfWhole(t, o, name, aliases, naming);
      }
    case Walrus(_, w) => ItemIsOfWhole(t, w, name, aliases, naming);
    case Elements(_, elts) =>
      var i :| 0 <= i < |elts| && PartMayBePlatform(t, elts[i], name, aliases, naming);
      PartIsOfWhole(t, elts[i], name, aliases, naming);
    case _ => PartIsOfWhole(t, e, name, aliases, naming);
  }

  /** No hidden getter and no name under a star in the assignments of the scope. */
  predicate Plain(assignments: seq<Assignment>, naming: Naming, scope: Scope) {
    forall i :: 0 <= i < |assignments| && assignments[i].scope == scope ==>
      && !HidesGetter(assignments[i].value, naming)
      && forall n :: n in BoundNames(assignments[i]) ==> n in assignments[i].Names()
  }

  /** Scopes of that kind are covered if the builder knew, where it judged, what
      the analysis answers there, loops bring nothing new to their start, and what
      is known where control may leave is known where it goes.
      All of it can be read off the analysis' own answers. */
  lemma PlainScopesAreCovered(assignments: seq<Assignment>, naming: Naming, jumps: Jumps, scope: Scope, starts: Starts)
    requires Sorted(assignments) && Plain(assignments, naming, scope)
    requires StartsAreKnown(assignments, naming, scope, starts)
    requires forall i :: 0 <= i < |assignments| && assignments[i].scope == scope ==>
               KnownAt(assignments, naming, scope, i) <= BuilderKnew(assignments, naming, i)
    requires forall i, k :: 0 <= i < |assignments| && 0 <= k <= |assignments| && (i, k) in jumps.back ==>
               KnownAt(assignments, naming, scope, i + 1) <= KnownAt(assignments, naming, scope, k)
    requires forall i, k :: 0 <= i < |assignments| && 0 <= k <= |assignments| && (i, k) in jumps.out ==>
               KnownAt(assignments, naming, scope, i) <= KnownAt(assignments, naming, scope, k)
    ensures RunsAreCovered(assignments, naming, jumps, scope, starts)
  {
    hide HistoriesOf, Materialize, Platformish, HidesGetter, CanBind, IsRun, Derived, BoundNames, KnownAt, BuilderKnew, Recorded;
    var known := seq(|assignments| + 1, k requires 0 <= k => KnownAt(assignments, naming, scope, k));
    forall i, n | 0 <= i < |assignments| && n in After(assignments[i], naming, scope, known[i])
      ensures n in known[i + 1]
    {
      KnownStep(assignments, naming, scope, i, n);
      var a := assignments[i];
      NamesAreBound(a);
      if a.scope == scope && n in BoundNames(a) && CanBind(a, n, known[i], naming) && !Recorded(assignments, naming, i) {
        LostBindingsAreExplained(assignments, naming, i, n, known[i]);
      }
    }
    assert Solves(assignments, naming, jumps, scope, starts, known);
    forall k, p, run, initial |
      InFront(assignments, k, p) && IsRun(assignments, jumps, scope, run, k) && initial in starts
      ensures Derived(assignments, naming, scope, run, initial) <= Materialize(HistoriesOf(assignments, naming), scope, p)
    {
      PositionsAgree(assignments, naming, scope, k, p);
      SolutionsBoundRuns(assignments, naming, jumps, scope, starts, known, run, initial, k);
    }
  }

  /** A module starts with nothing. */
  const FROM_NOTHING: Starts := {{}}

  /** Module code without hidden getters, stars and loops is analysed soundly. */
  lemma PlainModulesAreCovered(assignments: seq<Assignment>, naming: Naming)
    requires Sorted(assignments) && Plain(assignments, naming, Module)
    ensures RunsAreCovered(assignments, naming, NO_JUMPS, Module, FROM_NOTHING)
  {
    hide KnownAt, BuilderKnew, Plain, RunsAreCovered;
    forall i | 0 <= i < |assignments| && assignments[i].scope == Module
      ensures KnownAt(assignments, naming, Module, i) <= BuilderKnew(assignments, naming, i)
    {
      BuilderKnowsTheModule(assignments, naming, i);
    }
    PlainScopesAreCovered(assignments, naming, NO_JUMPS, Module, FROM_NOTHING);
  }

  // -------------------------------------------------------------------- exactness

  /** The analysis answers, at every position, exactly the names that hold a
      platform-derived value there on some run. */
  ghost predicate AnswersAreExact(assignments: seq<Assignment>, naming: Naming, jumps: Jumps, scope: Scope, starts: Starts) {
    forall k, p, n :: InFront(assignments, k, p) ==>
      (n in Materialize(HistoriesOf(assignments, naming), scope, p) <==>
       Derives(assignments, naming, jumps, scope, starts, k, n))
  }

  /** What is recorded for a name, or what a star leaves standing, is so on some
      run. */
  ghost predicate Justified(assignments: seq<Assignment>, naming: Naming, jumps: Jumps, scope: Scope, starts: Starts,
                            i: nat, name: string)
    requires i < |assignments|
  {
    (if name in assignments[i].Names() then Recorded(assignments, naming, i)
     else name in MayHold(assignments, naming, jumps, scope, starts, i)) ==>
      name in MayHold(assignments, naming, jumps, scope, starts, i + 1)
  }

  ghost predicate RecordsAreJustified(assignments: seq<Assignment>, naming: Naming, jumps: Jumps, scope: Scope,
                                      starts: Starts)
  {
    forall i, n :: 0 <= i < |assignments| && assignments[i].scope == scope && n in BoundNames(assignments[i]) ==>
      Justified(assignments, naming, jumps, scope, starts, i, n)
  }

  /** Exactness holds if and only if soundness does, the scope may really be
      entered with every name the analysis starts from, and every recorded
      judgement holds of each name it was recorded for. */
  lemma ExactExactly(assignments: seq<Assignment>, naming: Naming, jumps: Jumps, scope: Scope, starts: Starts)
    requires Sorted(assignments) && starts != {}
    ensures AnswersAreExact(assignments, naming, jumps, scope, starts) <==>
            && RunsAreCovered(assignments, naming, jumps, scope, starts)
            && KnownAt(assignments, naming, scope, 0) <= MayHold(assignments, naming, jumps, scope, starts, 0)
            && RecordsAreJustified(assignments, naming, jumps, scope, starts)
  {
    hide *;
    if AnswersAreExact(assignments, naming, jumps, scope, starts) {
      ExactMeansJustified(assignments, naming, jumps, scope, starts);
    }
    if && RunsAreCovered(assignments, naming, jumps, scope, starts)
       && KnownAt(assignments, naming, scope, 0) <= MayHold(assignments, naming, jumps, scope, starts, 0)
       && RecordsAreJustified(assignments, naming, jumps, scope, starts) {
      JustifiedMeansExact(assignments, naming, jumps, scope, starts);
    }
  }

  lemma ExactMeansJustified(assignments: seq<Assignment>, naming: Naming, jumps: Jumps, scope: Scope, starts: Starts)
    requires Sorted(assignments) && starts != {} && AnswersAreExact(assignments, naming, jumps, scope, starts)
    ensures RunsAreCovered(assignments, naming, jumps, scope, starts)
    ensures KnownAt(assignments, naming, scope, 0) <= MayHold(assignments, naming, jumps, scope, starts, 0)
    ensures RecordsAreJustified(assignments, naming, jumps, scope, starts)
  {
    hide IsRun, Derived, Materialize, KnownAt, MayHold, Recorded, InFront, AnswersAreExact, Derives, BoundNames;
    forall k: nat, p, run, initial |
      InFront(assignments, k, p) && IsRun(assignments, jumps, scope, run, k) && initial in starts
      ensures Derived(assignments, naming, scope, run, initial) <= Materialize(HistoriesOf(assignments, naming), scope, p)
    {
      PositionsAgree(assignments, naming, scope, k, p);
      RunIsWithinMayHold(assignments, naming, jumps, scope, starts, run, initial, k);
      InFrontIsBounded(assignments, k, p);
      ExactAt(assignments, naming, jumps, scope, starts, k);
    }
    ExactAt(assignments, naming, jumps, scope, starts, 0);
    forall i, n | 0 <= i < |assignments| && assignments[i].scope == scope && n in BoundNames(assignments[i])
      ensures Justified(assignments, naming, jumps, scope, starts, i, n)
    {
      ExactAt(assignments, naming, jumps, scope, starts, i);
      ExactAt(assignments, naming, jumps, scope, starts, i + 1);
      KnownStep(assignments, naming, scope, i, n);
    }
  }

  lemma InFrontIsBounded(assignments: seq<Assignment>, k: nat, p: Position)
    requires InFront(assignments, k, p)
    ensures k <= |assignments|
  {
  }

  lemma ExactAt(assignments: seq<Assignment>, naming: Naming, jumps: Jumps, scope: Scope, starts: Starts, k: nat)
    requires Sorted(assignments) && k <= |assignments| && AnswersAreExact(assignments, naming, jumps, scope, starts)
    ensures KnownAt(assignments, naming, scope, k) == MayHold(assignments, naming, jumps, scope, starts, k)
  {
    hide Derives, Materialize, InFront, Front, MayHold;
    FrontIsInFront(assignments, k);
    forall n
      ensures n in KnownAt(assignments, naming, scope, k) <==> n in MayHold(assignments, naming, jumps, scope, starts, k)
    {
      MayHoldIsDerived(assignments, naming, jumps, scope, starts, k, n);
      assert InFront(assignments, k, Front(assignments, k));
    }
  }

  lemma {:induction false} KnownIsHeld(assignments: seq<Assignment>, naming: Naming, jumps: Jumps, scope: Scope,
                                       starts: Starts, k: nat, name: string)
    requires Sorted(assignments) && starts != {} && k <= |assignments|
    requires KnownAt(assignments, naming, scope, 0) <= MayHold(assignments, naming, jumps, scope, starts, 0)
    requires RecordsAreJustified(assignments, naming, jumps, scope, starts)
    requires name in KnownAt(assignments, naming, scope, k)
    ensures name in MayHold(assignments, naming, jumps, scope, starts, k)
  {
    hide KnownAt, MayHold, Recorded, BoundNames, Derives, CanBind;
    if k > 0 {
      var a := assignments[k - 1];
      KnownStep(assignments, naming, scope, k - 1, name);
      NamesAreBound(a);
      if name in KnownAt(assignments, naming, scope, k - 1) {
        KnownIsHeld(assignments, naming, jumps, scope, starts, k - 1, name);
        if a.scope != scope || a.BranchLocal() || name !in BoundNames(a) {
          AfterIsDerived(assignments, naming, jumps, scope, starts, k - 1, k, name);
          MayHoldIsDerived(assignments, naming, jumps, scope, starts, k, name);
        }
      }
    }
  }

  lemma JustifiedMeansExact(assignments: seq<Assignment>, naming: Naming, jumps: Jumps, scope: Scope, starts: Starts)
    requires Sorted(assignments) && starts != {} && RunsAreCovered(assignments, naming, jumps, scope, starts)
    requires KnownAt(assignments, naming, scope, 0) <= MayHold(assignments, naming, jumps, scope, starts, 0)
    requires RecordsAreJustified(assignments, naming, jumps, scope, starts)
    ensures AnswersAreExact(assignments, naming, jumps, scope, starts)
  {
    hide KnownAt, MayHold, Derives, RecordsAreJustified, RunsAreCovered, AnswersAreExact;
    forall k: nat | k <= |assignments|
      ensures KnownAt(assignments, naming, scope, k) == MayHold(assignments, naming, jumps, scope, starts, k)
    {
      forall n
        ensures n in KnownAt(assignments, naming, scope, k) <==> n in MayHold(assignments, naming, jumps, scope, starts, k)
      {
        if n in KnownAt(assignments, naming, scope, k) {
          KnownIsHeld(assignments, naming, jumps, scope, starts, k, n);
        }
        MayHoldIsDerived(assignments, naming, jumps, scope, starts, k, n);
        if Derives(assignments, naming, jumps, scope, starts, k, n) {
          DerivedIsCovered(assignments, naming, jumps, scope, starts, k, n);
        }
      }
    }
    AgreementIsExactness(assignments, naming, jumps, scope, starts);
  }

  lemma AgreementIsExactness(assignments: seq<Assignment>, naming: Naming, jumps: Jumps, scope: Scope, starts: Starts)
    requires Sorted(assignments)
    requires forall k: nat :: k <= |assignments| ==>
               KnownAt(assignments, naming, scope, k) == MayHold(assignments, naming, jumps, scope, starts, k)
    ensures AnswersAreExact(assignments, naming, jumps, scope, starts)
  {
    hide KnownAt, MayHold, Derives, Materialize, InFront;
    forall k: nat, p, n | InFront(assignments, k, p)
      ensures n in Materialize(HistoriesOf(assignments, naming), scope, p) <==>
              Derives(assignments, naming, jumps, scope, starts, k, n)
    {
      PositionsAgree(assignments, naming, scope, k, p);
      InFrontIsBounded(assignments, k, p);
      MayHoldIsDerived(assignments, naming, jumps, scope, starts, k, n);
    }
  }

  // ---------------------------------------------------------- modules without loops

  /** Without jumps, what may hold behind an assignment is what may hold in front
      of the next. */
  lemma NextIsAfter(assignments: seq<Assignment>, naming: Naming, scope: Scope, starts: Starts, i: nat)
    requires starts != {} && i < |assignments|
    ensures MayHold(assignments, naming, NO_JUMPS, scope, starts, i + 1) ==
            After(assignments[i], naming, scope, MayHold(assignments, naming, NO_JUMPS, scope, starts, i))
  {
    hide MayHold, After, Derives, Effect, Allowed;
    var may := MayHold(assignments, naming, NO_JUMPS, scope, starts, i);
    forall n
      ensures n in MayHold(assignments, naming, NO_JUMPS, scope, starts, i + 1) <==> n in After(assignments[i], naming, scope, may)
    {
      MayHoldIsDerived(assignments, naming, NO_JUMPS, scope, starts, i + 1, n);
      if n in After(assignments[i], naming, scope, may) {
        AfterIsDerived(assignments, naming, NO_JUMPS, scope, starts, i, i + 1, n);
      }
      if Derives(assignments, naming, NO_JUMPS, scope, starts, i + 1, n) {
        DerivedIsAfter(assignments, naming, scope, starts, i, n);
      }
    }
  }

  lemma DerivedIsAfter(assignments: seq<Assignment>, naming: Naming, scope: Scope, starts: Starts, i: nat, name: string)
    requires i < |assignments| && Derives(assignments, naming, NO_JUMPS, scope, starts, i + 1, name)
    ensures name in After(assignments[i], naming, scope, MayHold(assignments, naming, NO_JUMPS, scope, starts, i))
  {
    hide MayHold, After, Effect, Allowed;
    var run, initial :| initial in starts && IsRun(assignments, NO_JUMPS, scope, run, i + 1)
      && name in Derived(assignments, naming, scope, run, initial);
    var v := run[|run| - 1];
    var front := run[..|run| - 1];
    RunIsWithinMayHold(assignments, naming, NO_JUMPS, scope, starts, front, initial, i);
    EffectIsWithin(assignments[i], naming, scope, v, Derived(assignments, naming, scope, front, initial),
                   MayHold(assignments, naming, NO_JUMPS, scope, starts, i));
  }

  /** What an event makes of the names that may hold in front of it. */
  ghost predicate EventHolds(assignments: seq<Assignment>, naming: Naming, i: nat, may: set<string>, name: string)
    requires i < |assignments|
  {
    if name in assignments[i].Names()
    then Recorded(assignments, naming, i) || (assignments[i].BranchLocal() && name in may)
    else name in may
  }

  /** The event of the module's `i`th assignment says of the name what holds
      behind the assignment. */
  ghost predicate EventIsRight(assignments: seq<Assignment>, naming: Naming, i: nat, name: string)
    requires i < |assignments|
  {
    var may := MayHold(assignments, naming, NO_JUMPS, Module, FROM_NOTHING, i);
    EventHolds(assignments, naming, i, may, name) <==> name in After(assignments[i], naming, Module, may)
  }

  ghost predicate EventsAreRight(assignments: seq<Assignment>, naming: Naming) {
    forall i, n :: 0 <= i < |assignments| && assignments[i].scope == Module && n in BoundNames(assignments[i]) ==>
      EventIsRight(assignments, naming, i, n)
  }

  /** A module without loops is analysed exactly if and only if each event is
      right for each name its assignment binds. */
  lemma ModuleAliasesAreExact(assignments: seq<Assignment>, naming: Naming)
    requires Sorted(assignments)
    ensures AnswersAreExact(assignments, naming, NO_JUMPS, Module, FROM_NOTHING) <==> EventsAreRight(assignments, naming)
  {
    hide KnownAt, MayHold, Recorded, BoundNames, AnswersAreExact, After;
    if AnswersAreExact(assignments, naming, NO_JUMPS, Module, FROM_NOTHING) {
      forall i, n | 0 <= i < |assignments| && assignments[i].scope == Module && n in BoundNames(assignments[i])
        ensures EventIsRight(assignments, naming, i, n)
      {
        ExactAt(assignments, naming, NO_JUMPS, Module, FROM_NOTHING, i);
        ExactAt(assignments, naming, NO_JUMPS, Module, FROM_NOTHING, i + 1);
        KnownStep(assignments, naming, Module, i, n);
        NextIsAfter(assignments, naming, Module, FROM_NOTHING, i);
      }
    }
    if EventsAreRight(assignments, naming) {
      forall k: nat | k <= |assignments|
        ensures KnownAt(assignments, naming, Module, k) == MayHold(assignments, naming, NO_JUMPS, Module, FROM_NOTHING, k)
      {
        RightEventsAgree(assignments, naming, k);
      }
      AgreementIsExactness(assignments, naming, NO_JUMPS, Module, FROM_NOTHING);
    }
  }

  lemma {:induction false} RightEventsAgree(assignments: seq<Assignment>, naming: Naming, k: nat)
    requires Sorted(assignments) && k <= |assignments| && EventsAreRight(assignments, naming)
    ensures KnownAt(assignments, naming, Module, k) == MayHold(assignments, naming, NO_JUMPS, Module, FROM_NOTHING, k)
  {
    hide KnownAt, MayHold, Recorded, BoundNames, CanBind;
    if k == 0 {
      KnownAtFirst(assignments, naming, Module);
      NothingIsHeldAtFirst(assignments, naming);
    } else {
      var i := k - 1;
      var a := assignments[i];
      RightEventsAgree(assignments, naming, i);
      NextIsAfter(assignments, naming, Module, FROM_NOTHING, i);
      NamesAreBound(a);
      forall n
        ensures n in KnownAt(assignments, naming, Module, k) <==>
                n in MayHold(assignments, naming, NO_JUMPS, Module, FROM_NOTHING, k)
      {
        KnownStep(assignments, naming, Module, i, n);
        if a.scope == Module && n in BoundNames(a) {
          assert EventIsRight(assignments, naming, i, n);
        }
      }
    }
  }

  lemma NothingIsHeldAtFirst(assignments: seq<Assignment>, naming: Naming)
    ensures MayHold(assignments, naming, NO_JUMPS, Module, FROM_NOTHING, 0) == {}
  {
    hide AllNames, MayHold;
    forall n
      ensures n !in MayHold(assignments, naming, NO_JUMPS, Module, FROM_NOTHING, 0)
    {
      MayHoldIsDerived(assignments, naming, NO_JUMPS, Module, FROM_NOTHING, 0, n);
    }
  }

  /** The names that may hold platform-derived values, folded over the module's
      assignments from what each can bind. */
  function MayFold(assignments: seq<Assignment>, naming: Naming): set<string> {
    if assignments == [] then {}
    else After(assignments[|assignments| - 1], naming, Module, MayFold(assignments[..|assignments| - 1], naming))
  }

  /** The names judged so far, folded over the assignments from the judgement of
      each right-hand side as a whole. */
  function KnownFold(assignments: seq<Assignment>, naming: Naming): set<string> {
    if assignments == [] then {}
    else
      var a := assignments[|assignments| - 1];
      var known := KnownFold(assignments[..|assignments| - 1], naming);
      if a.scope != Module then known
      else
        (set n | n in known && (a.BranchLocal() || n !in a.Names()))
        + (if Platformish(a.value, known, naming) then set n | n in a.Names() else {})
  }

  lemma {:induction false} FoldsAreAnswers(assignments: seq<Assignment>, naming: Naming, k: nat)
    requires Sorted(assignments) && k <= |assignments|
    ensures KnownAt(assignments, naming, Module, k) == KnownFold(assignments[..k], naming)
    ensures MayHold(assignments, naming, NO_JUMPS, Module, FROM_NOTHING, k) == MayFold(assignments[..k], naming)
  {
    hide KnownAt, MayHold, Platformish, After, BuilderKnew;
    if k == 0 {
      KnownAtFirst(assignments, naming, Module);
      NothingIsHeldAtFirst(assignments, naming);
    } else {
      var i := k - 1;
      var a, front := assignments[i], assignments[..k];
      assert front[..i] == assignments[..i];
      FoldsAreAnswers(assignments, naming, i);
      NextIsAfter(assignments, naming, Module, FROM_NOTHING, i);
      if a.scope == Module {
        BuilderKnowsTheModule(assignments, naming, i);
      }
      forall n
        ensures n in KnownAt(assignments, naming, Module, k) <==> n in KnownFold(front, naming)
      {
        KnownStep(assignments, naming, Module, i, n);
      }
    }
  }

  /** For module code without loops and swallowed exceptions two folds over the
      text decide: the analysis is sound if and only if the second has every name
      of the first in front of each assignment and at the end, and exact if and
      only if they are equal there. */
  lemma ModuleFoldsDecide(assignments: seq<Assignment>, naming: Naming)
    requires Sorted(assignments)
    ensures RunsAreCovered(assignments, naming, NO_JUMPS, Module, FROM_NOTHING) <==>
            forall k :: 0 <= k <= |assignments| ==> MayFold(assignments[..k], naming) <= KnownFold(assignments[..k], naming)
    ensures AnswersAreExact(assignments, naming, NO_JUMPS, Module, FROM_NOTHING) <==>
            forall k :: 0 <= k <= |assignments| ==> MayFold(assignments[..k], naming) == KnownFold(assignments[..k], naming)
  {
    hide KnownAt, MayHold, MayFold, KnownFold, RunsAreCovered, AnswersAreExact;
    forall k | 0 <= k <= |assignments|
      ensures KnownAt(assignments, naming, Module, k) == KnownFold(assignments[..k], naming)
      ensures MayHold(assignments, naming, NO_JUMPS, Module, FROM_NOTHING, k) == MayFold(assignments[..k], naming)
      ensures RunsAreCovered(assignments, naming, NO_JUMPS, Module, FROM_NOTHING) ==>
                MayFold(assignments[..k], naming) <= KnownFold(assignments[..k], naming)
      ensures AnswersAreExact(assignments, naming, NO_JUMPS, Module, FROM_NOTHING) ==>
                MayFold(assignments[..k], naming) == KnownFold(assignments[..k], naming)
    {
      FoldsAreAnswers(assignments, naming, k);
      if RunsAreCovered(assignments, naming, NO_JUMPS, Module, FROM_NOTHING) {
        CoveredIsHeld(assignments, naming, NO_JUMPS, Module, FROM_NOTHING, k);
      }
      if AnswersAreExact(assignments, naming, NO_JUMPS, Module, FROM_NOTHING) {
        ExactAt(assignments, naming, NO_JUMPS, Module, FROM_NOTHING, k);
      }
    }
    if forall k :: 0 <= k <= |assignments| ==> MayFold(assignments[..k], naming) <= KnownFold(assignments[..k], naming) {
      HeldIsCovered(assignments, naming, NO_JUMPS, Module, FROM_NOTHING);
    }
    if forall k :: 0 <= k <= |assignments| ==> MayFold(assignments[..k], naming) == KnownFold(assignments[..k], naming) {
      AgreementIsExactness(assignments, naming, NO_JUMPS, Module, FROM_NOTHING);
    }
  }

  lemma CoveredIsHeld(assignments: seq<Assignment>, naming: Naming, jumps: Jumps, scope: Scope, starts: Starts, k: nat)
    requires Sorted(assignments) && k <= |assignments| && RunsAreCovered(assignments, naming, jumps, scope, starts)
    ensures MayHold(assignments, naming, jumps, scope, starts, k) <= KnownAt(assignments, naming, scope, k)
  {
    hide MayHold, Derives, KnownAt, RunsAreCovered;
    forall n | n in MayHold(assignments, naming, jumps, scope, starts, k)
      ensures n in KnownAt(assignments, naming, scope, k)
    {
      MayHoldIsDerived(assignments, naming, jumps, scope, starts, k, n);
      DerivedIsCovered(assignments, naming, jumps, scope, starts, k, n);
    }
  }

  lemma HeldIsCovered(assignments: seq<Assignment>, naming: Naming, jumps: Jumps, scope: Scope, starts: Starts)
    requires Sorted(assignments)
    requires forall k: nat :: k <= |assignments| ==>
               MayHold(assignments, naming, jumps, scope, starts, k) <= KnownAt(assignments, naming, scope, k)
    ensures RunsAreCovered(assignments, naming, jumps, scope, starts)
  {
    hide MayHold, KnownAt, IsRun, Derived, Materialize, InFront;
    forall k: nat, p, run, initial |
      InFront(assignments, k, p) && IsRun(assignments, jumps, scope, run, k) && initial in starts
      ensures Derived(assignments, naming, scope, run, initial) <= Materialize(HistoriesOf(assignments, naming), scope, p)
    {
      PositionsAgree(assignments, naming, scope, k, p);
      InFrontIsBounded(assignments, k, p);
      RunIsWithinMayHold(assignments, naming, jumps, scope, starts, run, initial, k);
    }
  }

  // -------------------------------------------------------------- calls of functions

  /** What a function may be entered with when the module calls it in front of
      its `m`th assignment. */
  ghost function CallStarts(assignments: seq<Assignment>, naming: Naming, jumps: Jumps, m: nat): Starts {
    set s | s <= AllNames(assignments, FROM_NOTHING) && DerivedByRun(assignments, naming, jumps, m, s)
  }

  ghost predicate DerivedByRun(assignments: seq<Assignment>, naming: Naming, jumps: Jumps, m: nat, s: set<string>) {
    exists run :: IsRun(assignments, jumps, Module, run, m) && s == Derived(assignments, naming, Module, run, {})
  }

  lemma CallsAreEntered(assignments: seq<Assignment>, naming: Naming, jumps: Jumps, m: nat)
    requires m <= |assignments|
    ensures CallStarts(assignments, naming, jumps, m) != {}
    ensures forall n :: (exists s :: s in CallStarts(assignments, naming, jumps, m) && n in s) <==>
              n in MayHold(assignments, naming, jumps, Module, FROM_NOTHING, m)
  {
    hide IsRun, Derived, MayHold, AllNames;
    var starts := CallStarts(assignments, naming, jumps, m);
    var run := StraightRun(assignments, jumps, Module, m);
    DerivedIsNamed(assignments, naming, Module, run, {}, FROM_NOTHING);
    assert Derived(assignments, naming, Module, run, {}) in starts;
    forall n
      ensures (exists s :: s in starts && n in s) <==> n in MayHold(assignments, naming, jumps, Module, FROM_NOTHING, m)
    {
      MayHoldIsDerived(assignments, naming, jumps, Module, FROM_NOTHING, m, n);
      if n in MayHold(assignments, naming, jumps, Module, FROM_NOTHING, m) {
        var run', initial :| initial in FROM_NOTHING && IsRun(assignments, jumps, Module, run', m)
          && n in Derived(assignments, naming, Module, run', initial);
        DerivedIsNamed(assignments, naming, Module, run', {}, FROM_NOTHING);
        assert Derived(assignments, naming, Module, run', {}) in starts;
      }
    }
  }

  /** In a function called there the analysis is sound if and only if whatever
      the module may hold at the call is a final alias of the module, and the
      function's own events and jumps miss nothing. */
  lemma FunctionAliasesAreSound(assignments: seq<Assignment>, naming: Naming, moduleJumps: Jumps, m: nat,
                                jumps: Jumps, scope: Scope)
    requires Sorted(assignments) && m <= |assignments| && scope != Module
    ensures var starts := CallStarts(assignments, naming, moduleJumps, m);
            RunsAreCovered(assignments, naming, jumps, scope, starts) <==>
            && MayHold(assignments, naming, moduleJumps, Module, FROM_NOTHING, m) <= FinalAliases(assignments, naming)
            && BindingsAreKept(assignments, naming, jumps, scope, starts)
            && JumpsAreKnown(assignments, naming, jumps, scope, starts)
            && LeavesAreKnown(assignments, naming, jumps, scope, starts)
  {
    hide RunsAreCovered, BindingsAreKept, JumpsAreKnown, LeavesAreKnown, MayHold, FinalAliases, KnownAt, CallStarts;
    var starts := CallStarts(assignments, naming, moduleJumps, m);
    CallsAreEntered(assignments, naming, moduleJumps, m);
    SoundExactly(assignments, naming, jumps, scope, starts);
    KnownAtFirst(assignments, naming, scope);
    var held := MayHold(assignments, naming, moduleJumps, Module, FROM_NOTHING, m);
    var final := FinalAliases(assignments, naming);
    if held <= final {
      forall initial, n | initial in starts && n in initial
        ensures n in final
      {
        assert n in held;
      }
    }
    if StartsAreKnown(assignments, naming, scope, starts) {
      forall n | n in held
        ensures n in final
      {
        var s :| s in starts && n in s;
        assert s <= final;
      }
    }
  }
}
