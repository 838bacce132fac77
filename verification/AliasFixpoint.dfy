/** The flow-insensitive alias fixpoint, and why it bounds the flow-sensitive
    analysis. */
module AliasFixpoint {
  import opened AliasResolve
  import opened AliasAnalysis
  import AliasTheorems

  function NameSet(a: Assignment): set<string> {
    set n | n in a.Names()
  }

  /** Every platform-valued assignment binds names of the set only. */
  predicate ClosedUnder(assignments: seq<Assignment>, naming: Naming, aliases: set<string>) {
    forall i :: 0 <= i < |assignments| && Platformish(assignments[i].value, aliases, naming) ==>
      NameSet(assignments[i]) <= aliases
  }

  function AllNames(assignments: seq<Assignment>): set<string> {
    set i, n | 0 <= i < |assignments| && n in assignments[i].Names() :: n
  }

  /** Adds the names of platform-valued assignments until nothing changes; the
      result is the least closed set. */
  method CollectPlatformAliases(assignments: seq<Assignment>, naming: Naming) returns (aliases: set<string>)
    ensures ClosedUnder(assignments, naming, aliases)
    ensures forall s :: ClosedUnder(assignments, naming, s) ==> aliases <= s
  {
    aliases := {};
    var changed := true;
    while changed
      invariant aliases <= AllNames(assignments)
      invariant forall s :: ClosedUnder(assignments, naming, s) ==> aliases <= s
      invariant !changed ==> ClosedUnder(assignments, naming, aliases)
      decreases AllNames(assignments) - aliases, changed
    {
      changed := false;
      ghost var before := aliases;
      for i := 0 to |assignments|
        invariant before <= aliases <= AllNames(assignments)
        invariant forall s :: ClosedUnder(assignments, naming, s) ==> aliases <= s
        invariant changed <==> aliases != before
        invariant !changed ==> forall j :: 0 <= j < i && Platformish(assignments[j].value, aliases, naming) ==>
                                 NameSet(assignments[j]) <= aliases
      {
        var a := assignments[i];
        if Platformish(a.value, aliases, naming) {
          var names := NameSet(a);
          forall s | ClosedUnder(assignments, naming, s)
            ensures aliases + names <= s
          {
            PlatformishIsMonotone(a.value, aliases, s, naming);
            assert NameSet(assignments[i]) <= s;
          }
          if !(names <= aliases) {
            changed := true;
          }
          aliases := aliases + names;
        }
      }
    }
  }

  /** Events with a platform value belong to names of the set. */
  ghost predicate EventsWithin(h: Histories, aliases: set<string>) {
    forall scope, name, e :: e in EventsOf(h, scope, name) && e.value ==> name in aliases
  }

  lemma {:induction false} KnownHasPlatformEvent(events: seq<Event<bool>>)
    requires Resolve(false, events, Or)
    ensures exists e :: e in events && e.value
  {
    var n := |events| - 1;
    if !events[n].value {
      KnownHasPlatformEvent(events[..n]);
      var e :| e in events[..n] && e.value;
      assert e in events;
    } else {
      assert events[n] in events;
    }
  }

  lemma KnownIsWithin(h: Histories, scope: Scope, name: string, p: Position, aliases: set<string>)
    requires EventsWithin(h, aliases)
    requires Resolve(false, Visible(EventsOf(h, scope, name), p), Or)
    ensures name in aliases
  {
    var visible := Visible(EventsOf(h, scope, name), p);
    KnownHasPlatformEvent(visible);
    var e :| e in visible && e.value;
    assert e in EventsOf(h, scope, name);
  }

  lemma MaterializedIsWithin(h: Histories, scope: Scope, p: Position, aliases: set<string>)
    requires EventsWithin(h, aliases)
    ensures Materialize(h, scope, p) <= aliases
  {
    hide EventsWithin, EventsOf;
    forall name | name in Materialize(h, scope, p)
      ensures name in aliases
    {
      if scope != Module && ModuleKnows(h, name) {
        KnownIsWithin(h, Module, name, LAST, aliases);
      } else {
        KnownIsWithin(h, scope, name, p, aliases);
      }
    }
  }

  lemma {:induction false} HistoriesStayWithin(assignments: seq<Assignment>, naming: Naming, aliases: set<string>)
    requires ClosedUnder(assignments, naming, aliases)
    ensures EventsWithin(HistoriesOf(assignments, naming), aliases)
  {
    hide HistoriesOf, Materialize, Platformish;
    if assignments == [] {
      AliasTheorems.NoEventsAtFirst(naming);
    } else {
      var n := |assignments| - 1;
      var a := assignments[n];
      var h := HistoriesOf(assignments[..n], naming);
      var event := EventFor(h, a, naming);
      HistoriesStayWithin(assignments[..n], naming, aliases);
      MaterializedIsWithin(h, a.scope, a.at, aliases);
      if event.value {
        PlatformishIsMonotone(a.value, Materialize(h, a.scope, a.at), aliases, naming);
      }
      forall scope, name, e | e in EventsOf(HistoriesOf(assignments, naming), scope, name) && e.value
        ensures name in aliases
      {
        EventsOneMore(assignments, naming, scope, name);
        BindingsAreTheEvent(a.Names(), name, event);
        assert e in EventsOf(h, scope, name) || (e == event && name in a.Names());
      }
    }
  }

  /** Every alias set of the flow-sensitive analysis, at every scope and
      position, lies inside every closed set, in particular inside the least
      one the fixpoint computes. */
  lemma FlowSensitiveIsWithinFixpoint(assignments: seq<Assignment>, naming: Naming, scope: Scope, p: Position,
                                      aliases: set<string>)
    requires ClosedUnder(assignments, naming, aliases)
    ensures Materialize(HistoriesOf(assignments, naming), scope, p) <= aliases
  {
    hide HistoriesOf, Materialize, ClosedUnder;
    HistoriesStayWithin(assignments, naming, aliases);
    MaterializedIsWithin(HistoriesOf(assignments, naming), scope, p, aliases);
  }
}
