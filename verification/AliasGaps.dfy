/** Programs for which the alias analysis misses a name, or reports one too many:
    one for each way in which the conditions for soundness and exactness fail. */
module AliasGaps {
  import opened AliasResolve
  import opened AliasAnalysis
  import opened AliasValues
  import opened AliasRuns
  import opened AliasTheorems

  /** A run brings the name to the front of the `k`th assignment with a
      platform-derived value, and the analysis does not know it there: the scope
      is not covered. */
  ghost predicate Missed(assignments: seq<Assignment>, naming: Naming, jumps: Jumps, scope: Scope, starts: Starts,
                         k: nat, name: string)
  {
    && Sorted(assignments) && k <= |assignments|
    && Derives(assignments, naming, jumps, scope, starts, k, name)
    && name !in KnownAt(assignments, naming, scope, k)
    && !RunsAreCovered(assignments, naming, jumps, scope, starts)
  }

  lemma UnknownIsMissed(assignments: seq<Assignment>, naming: Naming, jumps: Jumps, scope: Scope, starts: Starts,
                        k: nat, name: string)
    requires Sorted(assignments) && k <= |assignments|
    requires Derives(assignments, naming, jumps, scope, starts, k, name)
    requires name !in KnownAt(assignments, naming, scope, k)
    ensures Missed(assignments, naming, jumps, scope, starts, k, name)
  {
    hide Derives, KnownAt, RunsAreCovered;
    if RunsAreCovered(assignments, naming, jumps, scope, starts) {
      DerivedIsCovered(assignments, naming, jumps, scope, starts, k, name);
    }
  }

  /** `id = value` on a straight line or in a branch. */
  function Set(line: nat, column: nat, scope: Scope, id: string, value: Expr, inBranch: bool): Assignment {
    Assignment(Position(line, column), scope, [NameTarget(id)], value, false, inBranch)
  }

  lemma SetBinds(line: nat, column: nat, scope: Scope, id: string, value: Expr, inBranch: bool)
    ensures var a := Set(line, column, scope, id, value, inBranch);
            && a.Names() == [id]
            && BoundNames(a) == {id}
            && forall may, naming :: CanBind(a, id, may, naming) <==> MayBePlatform(value, may, naming)
  {
    var a := Set(line, column, scope, id, value, inBranch);
    OneTargetNames(a.targets[0]);
    assert id in Bound(a.targets[0]);
    assert LastBinder(a.targets, id) == 0;
  }

  lemma BuilderKnewNothing(assignments: seq<Assignment>, naming: Naming)
    requires assignments != []
    ensures BuilderKnew(assignments, naming, 0) == {}
  {
    assert assignments[..0] == [];
  }

  /** One step of a derivation: what can be bound, or stays, is derived next. */
  lemma Step(assignments: seq<Assignment>, naming: Naming, jumps: Jumps, scope: Scope, starts: Starts, i: nat, k: nat,
             name: string)
    requires starts != {} && i < |assignments| && k <= |assignments| && Follows(jumps, i, k)
    requires var a := assignments[i];
             || (Derives(assignments, naming, jumps, scope, starts, i, name)
                 && (a.scope != scope || a.BranchLocal() || name !in BoundNames(a)))
             || (a.scope == scope && name in BoundNames(a)
                 && CanBind(a, name, MayHold(assignments, naming, jumps, scope, starts, i), naming))
    ensures Derives(assignments, naming, jumps, scope, starts, k, name)
    ensures name in MayHold(assignments, naming, jumps, scope, starts, k)
  {
    hide Derives, MayHold, CanBind, BoundNames, Follows;
    MayHoldIsDerived(assignments, naming, jumps, scope, starts, i, name);
    AfterIsDerived(assignments, naming, jumps, scope, starts, i, k, name);
    MayHoldIsDerived(assignments, naming, jumps, scope, starts, k, name);
  }

  // ----------------------------------------------------------------- hidden getters

  /** `(other if test else box.get)("platform")` */
  function ChosenGetter(test: Expr, other: string, box: string): Expr {
    Call(Conditional(test, Name(other), Attribute(Name(box), "get")), [Literal("platform")])
  }

  /** A getter chosen by a conditional is not seen to fetch a platform key. */
  lemma ConditionalGetterIsMissed(test: Expr, other: string, box: string, naming: Naming)
    requires naming("platform") && !naming("get") && !naming(other) && !naming(box)
    ensures var e := ChosenGetter(test, other, box);
            && HidesGetter(e, naming) && !Platformish(e, {}, naming)
            && Missed([Set(1, 0, Module, "x", e, false)], naming, NO_JUMPS, Module, FROM_NOTHING, 1, "x")
  {
    hide MayHold, Derives, KnownAt, RunsAreCovered, BuilderKnew, CanBind, BoundNames;
    var getter := Attribute(Name(box), "get");
    var e := ChosenGetter(test, other, box);
    assert "platform" in Literals(Literal("platform"));
    assert !Platformish(Name(box), {}, naming);
    assert !Platformish(getter, {}, naming);
    assert !Platformish(e.func, {}, naming);
    assert MayBeGetter(getter) && MayBeGetter(e.func);
    var assignments := [Set(1, 0, Module, "x", e, false)];
    SetBinds(1, 0, Module, "x", e, false);
    Step(assignments, naming, NO_JUMPS, Module, FROM_NOTHING, 0, 1, "x");
    BuilderKnewNothing(assignments, naming);
    KnownStep(assignments, naming, Module, 0, "x");
    UnknownIsMissed(assignments, naming, NO_JUMPS, Module, FROM_NOTHING, 1, "x");
  }

  // -------------------------------------------------------- module names in functions

  /** A function copies a module name that only a later module assignment binds
      to a platform; it is called when the module has run. */
  lemma LateModuleNameIsMissed(naming: Naming)
    requires naming("adapter_key") && !naming("source")
    ensures var assignments := [Set(2, 4, Function(0), "copy", Name("source"), false),
                                Set(5, 0, Module, "source", Name("adapter_key"), false)];
            Missed(assignments, naming, NO_JUMPS, Function(0), CallStarts(assignments, naming, NO_JUMPS, 2), 1, "copy")
  {
    hide MayHold, Derives, KnownAt, RunsAreCovered, BuilderKnew, CanBind, BoundNames, CallStarts;
    var assignments := [Set(2, 4, Function(0), "copy", Name("source"), false),
                        Set(5, 0, Module, "source", Name("adapter_key"), false)];
    var starts := CallStarts(assignments, naming, NO_JUMPS, 2);
    SetBinds(2, 4, Function(0), "copy", Name("source"), false);
    SetBinds(5, 0, Module, "source", Name("adapter_key"), false);
    Step(assignments, naming, NO_JUMPS, Module, FROM_NOTHING, 1, 2, "source");
    CallsAreEntered(assignments, naming, NO_JUMPS, 2);
    var initial :| initial in starts && "source" in initial;
    StartIsDerived(assignments, naming, NO_JUMPS, Function(0), starts, initial, "source");
    MayHoldIsDerived(assignments, naming, NO_JUMPS, Function(0), starts, 0, "source");
    Step(assignments, naming, NO_JUMPS, Function(0), starts, 0, 1, "copy");
    BuilderKnewNothing(assignments, naming);
    KnownStep(assignments, naming, Function(0), 0, "copy");
    UnknownIsMissed(assignments, naming, NO_JUMPS, Function(0), starts, 1, "copy");
  }

  /** A function that reads a module name is called while the name holds a
      platform and before the module binds it to something else. */
  lemma MidModuleCallIsMissed(naming: Naming)
    requires naming("adapter_key") && !naming("source")
    ensures var assignments := [Set(1, 0, Module, "source", Name("adapter_key"), false),
                                Set(5, 0, Module, "source", Literal("x"), false)];
            && Missed(assignments, naming, NO_JUMPS, Function(0), CallStarts(assignments, naming, NO_JUMPS, 1), 1, "source")
            && InFront(assignments, 1, Position(3, 4))
            && "source" !in Materialize(HistoriesOf(assignments, naming), Function(0), Position(3, 4))
  {
    hide MayHold, Derives, KnownAt, RunsAreCovered, BuilderKnew, CanBind, BoundNames, CallStarts, Materialize, HistoriesOf;
    var assignments := [Set(1, 0, Module, "source", Name("adapter_key"), false),
                        Set(5, 0, Module, "source", Literal("x"), false)];
    var starts := CallStarts(assignments, naming, NO_JUMPS, 1);
    SetBinds(1, 0, Module, "source", Name("adapter_key"), false);
    SetBinds(5, 0, Module, "source", Literal("x"), false);
    Step(assignments, naming, NO_JUMPS, Module, FROM_NOTHING, 0, 1, "source");
    CallsAreEntered(assignments, naming, NO_JUMPS, 1);
    var initial :| initial in starts && "source" in initial;
    StartIsDerived(assignments, naming, NO_JUMPS, Function(0), starts, initial, "source");
    Step(assignments, naming, NO_JUMPS, Function(0), starts, 0, 1, "source");
    KnownAtFirst(assignments, naming, Function(0));
    FinalIsKnownAtEnd(assignments, naming);
    KnownStep(assignments, naming, Module, 1, "source");
    KnownStep(assignments, naming, Function(0), 0, "source");
    PositionsAgree(assignments, naming, Function(0), 1, Position(3, 4));
    UnknownIsMissed(assignments, naming, NO_JUMPS, Function(0), starts, 1, "source");
  }

  lemma FinalIsKnownAtEnd(assignments: seq<Assignment>, naming: Naming)
    ensures FinalAliases(assignments, naming) == KnownAt(assignments, naming, Module, |assignments|)
  {
  }

  /** A nested function copies a name of the enclosing function. */
  lemma EnclosingAliasIsMissed(naming: Naming)
    requires naming("adapter_key") && !naming("source")
    ensures var assignments := [Set(2, 4, Function(0), "source", Name("adapter_key"), false),
                                Set(4, 8, Function(1), "copy", Name("source"), false)];
            && Derives(assignments, naming, NO_JUMPS, Function(0), FROM_NOTHING, 1, "source")
            && Missed(assignments, naming, NO_JUMPS, Function(1), {{"source"}}, 2, "copy")
  {
    hide MayHold, Derives, KnownAt, RunsAreCovered, CanBind, BoundNames, HistoriesOf, Materialize;
    var assignments := [Set(2, 4, Function(0), "source", Name("adapter_key"), false),
                        Set(4, 8, Function(1), "copy", Name("source"), false)];
    SetBinds(2, 4, Function(0), "source", Name("adapter_key"), false);
    SetBinds(4, 8, Function(1), "copy", Name("source"), false);
    Step(assignments, naming, NO_JUMPS, Function(0), FROM_NOTHING, 0, 1, "source");
    StartIsDerived(assignments, naming, NO_JUMPS, Function(1), {{"source"}}, {"source"}, "source");
    Step(assignments, naming, NO_JUMPS, Function(1), {{"source"}}, 0, 1, "source");
    Step(assignments, naming, NO_JUMPS, Function(1), {{"source"}}, 1, 2, "copy");
    KnownStep(assignments, naming, Function(1), 1, "copy");
    var front := assignments[..1];
    assert front[..1] == front && Front(front, 1) == LAST;
    OtherScopesKnowNothing(assignments, naming);
    UnknownIsMissed(assignments, naming, NO_JUMPS, Function(1), {{"source"}}, 2, "copy");
  }

  /** The builder knew nothing of the enclosing function's name in the nested one. */
  lemma OtherScopesKnowNothing(assignments: seq<Assignment>, naming: Naming)
    requires Sorted(assignments) && |assignments| == 2
    requires assignments[0].scope == Function(0) && assignments[1].scope == Function(1)
    ensures "source" !in BuilderKnew(assignments, naming, 1)
  {
    hide Platformish, HistoriesOf, Materialize, EventFor;
    var front := assignments[..1];
    assert front[..0] == [] && front[..1] == front;
    NoEventsAtFirst(naming);
    PrefixIsKnown(assignments, naming, Function(1), "source");
    KnowledgeAfter(front, naming, Function(1), "source", false);
    KnowledgeAfter(front, naming, Module, "source", false);
  }

  // ------------------------------------------------------------- loops and targets

  /** A loop copies a name in front of the assignment that binds it to a
      platform; its second round does the rest. */
  lemma LoopCarriedAliasIsMissed(naming: Naming)
    requires naming("adapter_key") && !naming("source")
    ensures var assignments := [Set(2, 4, Module, "copy", Name("source"), true),
                                Set(3, 4, Module, "source", Name("adapter_key"), true)];
            Missed(assignments, naming, Jumps({(1, 0)}, {}), Module, FROM_NOTHING, 2, "copy")
  {
    hide MayHold, Derives, KnownAt, RunsAreCovered, BuilderKnew, CanBind, BoundNames;
    var assignments := [Set(2, 4, Module, "copy", Name("source"), true),
                        Set(3, 4, Module, "source", Name("adapter_key"), true)];
    var jumps := Jumps({(1, 0)}, {});
    SetBinds(2, 4, Module, "copy", Name("source"), true);
    SetBinds(3, 4, Module, "source", Name("adapter_key"), true);
    Step(assignments, naming, jumps, Module, FROM_NOTHING, 1, 0, "source");
    Step(assignments, naming, jumps, Module, FROM_NOTHING, 0, 1, "copy");
    Step(assignments, naming, jumps, Module, FROM_NOTHING, 1, 2, "copy");
    BuilderKnewNothing(assignments, naming);
    KnownAtFirst(assignments, naming, Module);
    KnownStep(assignments, naming, Module, 0, "copy");
    KnownStep(assignments, naming, Module, 1, "copy");
    UnknownIsMissed(assignments, naming, jumps, Module, FROM_NOTHING, 2, "copy");
  }

  /** `x` is bound anew in a with statement whose context manager swallows the
      exception raised in front of that; behind it `x` still holds a platform. */
  lemma SuppressedBodyIsMissed(naming: Naming)
    requires naming("adapter_key") && !naming("x")
    ensures var assignments := [Set(1, 0, Module, "x", Name("adapter_key"), false),
                                Set(4, 4, Module, "x", Literal("plain"), false)];
            Plain(assignments, naming, Module)
            && Missed(assignments, naming, Jumps({}, {(1, 2)}), Module, FROM_NOTHING, 2, "x")
  {
    hide MayHold, Derives, KnownAt, RunsAreCovered, BuilderKnew, CanBind, BoundNames, Platformish;
    var assignments := [Set(1, 0, Module, "x", Name("adapter_key"), false),
                        Set(4, 4, Module, "x", Literal("plain"), false)];
    var jumps := Jumps({}, {(1, 2)});
    SetBinds(1, 0, Module, "x", Name("adapter_key"), false);
    SetBinds(4, 4, Module, "x", Literal("plain"), false);
    KeyMayBePlatform(naming);
    Step(assignments, naming, jumps, Module, FROM_NOTHING, 0, 1, "x");
    LeftIsDerived(assignments, naming, jumps, Module, FROM_NOTHING, 1, 2, "x");
    TextIsNoPlatform(BuilderKnew(assignments, naming, 1), naming);
    KnownStep(assignments, naming, Module, 1, "x");
    UnknownIsMissed(assignments, naming, jumps, Module, FROM_NOTHING, 2, "x");
  }

  lemma KeyMayBePlatform(naming: Naming)
    requires naming("adapter_key")
    ensures forall may :: MayBePlatform(Name("adapter_key"), may, naming)
  {
  }

  lemma TextIsNoPlatform(aliases: set<string>, naming: Naming)
    ensures !Platformish(Literal("plain"), aliases, naming)
  {
  }

  /** `first, *rest = adapter_keys`: nothing is recorded for the name under the
      star. */
  lemma StarredNameIsMissed(naming: Naming)
    requires naming("adapter_keys")
    ensures var target := TupleTarget([NameTarget("first"), StarTarget(NameTarget("rest"))]);
            var assignments := [Assignment(Position(1, 0), Module, [target], Name("adapter_keys"), false, false)];
            Missed(assignments, naming, NO_JUMPS, Module, FROM_NOTHING, 1, "rest")
  {
    hide MayHold, Derives, KnownAt, RunsAreCovered, BuilderKnew;
    var pair := [NameTarget("first"), StarTarget(NameTarget("rest"))];
    var target := TupleTarget(pair);
    var a := Assignment(Position(1, 0), Module, [target], Name("adapter_keys"), false, false);
    assert "rest" in Bound(pair[1]);
    assert "rest" in Bound(target);
    assert "rest" in BoundNames(a) by { assert "rest" in Bound(a.targets[0]); }
    assert LastBinder(pair, "rest") == 1;
    assert CanBind(a, "rest", MayHold([a], naming, NO_JUMPS, Module, FROM_NOTHING, 0), naming);
    Step([a], naming, NO_JUMPS, Module, FROM_NOTHING, 0, 1, "rest");
    PairNames(pair[0], pair[1]);
    OneTargetNames(target);
    KnownAtFirst([a], naming, Module);
    KnownStep([a], naming, Module, 0, "rest");
    UnknownIsMissed([a], naming, NO_JUMPS, Module, FROM_NOTHING, 1, "rest");
  }

  lemma OneTargetNames(t: Target)
    ensures TargetsNames([t]) == TargetNames(t)
  {
    assert [t][..0] == [];
  }

  lemma PairNames(t: Target, u: Target)
    ensures TargetsNames([t, u]) == TargetNames(t) + TargetNames(u)
  {
    assert [t, u][..1] == [t];
    OneTargetNames(t);
  }

  /** `key, count = adapter_key, 1`: the builder judges the whole right-hand side
      once and records it for both names.  Nothing is missed, but `count` is an
      alias that no run binds to a platform. */
  lemma UnpackedDisplayIsTooMuch(naming: Naming)
    requires naming("adapter_key")
    ensures var target := TupleTarget([NameTarget("key"), NameTarget("count")]);
            var value := Elements(true, [Name("adapter_key"), Literal("1")]);
            var assignments := [Assignment(Position(1, 0), Module, [target], value, false, false)];
            && Sorted(assignments)
            && RunsAreCovered(assignments, naming, NO_JUMPS, Module, FROM_NOTHING)
            && "count" in KnownAt(assignments, naming, Module, 1)
            && !Derives(assignments, naming, NO_JUMPS, Module, FROM_NOTHING, 1, "count")
            && !AnswersAreExact(assignments, naming, NO_JUMPS, Module, FROM_NOTHING)
  {
    hide MayHold, Derives, KnownAt, RunsAreCovered, AnswersAreExact, Platformish, HidesGetter, Recorded, CanBind, Plain;
    var pair := [NameTarget("key"), NameTarget("count")];
    var value := Elements(true, [Name("adapter_key"), Literal("1")]);
    var a := Assignment(Position(1, 0), Module, [TupleTarget(pair)], value, false, false);
    PairNames(pair[0], pair[1]);
    OneTargetNames(a.targets[0]);
    PairIsBound(pair, a);
    PairIsJudgedWhole(pair, a, naming);
    PlainModulesAreCovered([a], naming);
    KnownStep([a], naming, Module, 0, "count");
    NextIsAfter([a], naming, Module, FROM_NOTHING, 0);
    NothingIsHeldAtFirst([a], naming);
    MayHoldIsDerived([a], naming, NO_JUMPS, Module, FROM_NOTHING, 1, "count");
    if AnswersAreExact([a], naming, NO_JUMPS, Module, FROM_NOTHING) {
      ExactAt([a], naming, NO_JUMPS, Module, FROM_NOTHING, 1);
    }
  }

  lemma PairIsJudgedWhole(pair: seq<Target>, a: Assignment, naming: Naming)
    requires naming("adapter_key") && pair == [NameTarget("key"), NameTarget("count")]
    requires a == Assignment(Position(1, 0), Module, [TupleTarget(pair)],
                             Elements(true, [Name("adapter_key"), Literal("1")]), false, false)
    requires BoundNames(a) == {"key", "count"} && a.Names() == ["key", "count"]
    ensures Plain([a], naming, Module) && Recorded([a], naming, 0) && !CanBind(a, "count", {}, naming)
  {
    hide BuilderKnew, BoundNames;
    var elts := a.value.elts;
    assert !HidesGetter(elts[0], naming) && !HidesGetter(elts[1], naming);
    assert Platformish(elts[0], BuilderKnew([a], naming, 0), naming);
    assert !MayBePlatform(elts[1], {}, naming);
    assert !HasStar(pair);
    assert "count" in Bound(pair[1]);
    assert LastBinder(pair, "count") == 1;
    assert Share(pair, a.value, 1) == elts[1];
    assert !PartMayBePlatform(pair[1], elts[1], "count", {}, naming);
    assert "count" in Bound(a.targets[0]);
    assert a.targets[LastBinder(a.targets, "count")] == TupleTarget(pair);
  }

  lemma PairIsBound(pair: seq<Target>, a: Assignment)
    requires pair == [NameTarget("key"), NameTarget("count")] && a.targets == [TupleTarget(pair)]
    ensures BoundNames(a) == {"key", "count"}
  {
    assert "key" in Bound(pair[0]) && "count" in Bound(pair[1]);
    assert Bound(a.targets[0]) == {"key", "count"};
  }
}
