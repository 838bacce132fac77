/** The platform-alias analysis of the leakage scanner: which names may hold a
    platform-derived value at a source position.  It builds event histories per
    scope in source order and resolves them on demand; beside it stands the
    flow-insensitive fixpoint over the same assignments. */
module AliasAnalysis {
  import opened AliasResolve

  // ---------------------------------------------------------------- expressions

  datatype Expr =
    | Name(id: string)
    | Attribute(value: Expr, attr: string)
    | Subscript(value: Expr, key: Expr)
    | Call(func: Expr, args: seq<Expr>)
    | Conditional(test: Expr, body: Expr, orelse: Expr)
    | Walrus(target: string, value: Expr)
    | Elements(ordered: bool, elts: seq<Expr>)
    | Literal(text: string)
    | Other(children: seq<Expr>)

  /** Tuple and list displays are ordered, set displays are not. */
  predicate IsDisplay(e: Expr) {
    e.Elements? && e.ordered
  }

  /** The non-empty string constants anywhere in an expression. */
  function Literals(e: Expr): set<string> {
    match e
    case Name(_) => {}
    case Attribute(v, _) => Literals(v)
    case Subscript(v, k) => Literals(v) + Literals(k)
    case Call(f, args) => Literals(f) + set i, s | 0 <= i < |args| && s in Literals(args[i]) :: s
    case Conditional(t, b, o) => Literals(t) + Literals(b) + Literals(o)
    case Walrus(_, v) => Literals(v)
    case Elements(_, elts) => set i, s | 0 <= i < |elts| && s in Literals(elts[i]) :: s
    case Literal(s) => if s == "" then {} else {s}
    case Other(cs) => set i, s | 0 <= i < |cs| && s in Literals(cs[i]) :: s
  }

  /** Identifiers and keys that name a platform or an adapter. */
  type Naming = string -> bool

  /** An expression that may denote a platform, given the platform aliases. */
  predicate Platformish(e: Expr, aliases: set<string>, naming: Naming) {
    match e
    case Walrus(_, v) => Platformish(v, aliases, naming)
    case Conditional(_, b, o) => Platformish(b, aliases, naming) || Platformish(o, aliases, naming)
    case Name(id) => id in aliases || naming(id)
    case Attribute(v, attr) => naming(attr) || Platformish(v, aliases, naming)
    case Subscript(v, k) => Platformish(v, aliases, naming) || exists s :: s in Literals(k) && naming(s)
    case Call(f, args) =>
      Platformish(f, aliases, naming)
      || (f.Attribute? && f.attr == "get" && |args| > 0 && exists s :: s in Literals(args[0]) && naming(s))
    case Elements(_, elts) => exists i :: 0 <= i < |elts| && Platformish(elts[i], aliases, naming)
    case _ => false
  }

  lemma {:induction false} PlatformishIsMonotone(e: Expr, a: set<string>, b: set<string>, naming: Naming)
    requires a <= b && Platformish(e, a, naming)
    ensures Platformish(e, b, naming)
  {
    match e
    case Walrus(_, v) => PlatformishIsMonotone(v, a, b, naming);
    case Conditional(_, t, o) =>
      if Platformish(t, a, naming) {
        PlatformishIsMonotone(t, a, b, naming);
      } else {
        PlatformishIsMonotone(o, a, b, naming);
      }
    case Attribute(v, attr) =>
      if !naming(attr) {
        PlatformishIsMonotone(v, a, b, naming);
      }
    case Subscript(v, k) =>
      if Platformish(v, a, naming) {
        PlatformishIsMonotone(v, a, b, naming);
      }
    case Call(f, args) =>
      if Platformish(f, a, naming) {
        PlatformishIsMonotone(f, a, b, naming);
      }
    case Elements(_, elts) =>
      var i :| 0 <= i < |elts| && Platformish(elts[i], a, naming);
      PlatformishIsMonotone(elts[i], a, b, naming);
    case _ =>
  }

  // ------------------------------------------------------------------ histories

  datatype Scope = Module | Function(id: nat)

  /** What stands left of an assignment.  Other targets are attributes and
      subscripts, which bind no name. */
  datatype Target =
    | NameTarget(id: string)
    | TupleTarget(elts: seq<Target>)
    | StarTarget(inner: Target)
    | OtherTarget

  /** The names the builder records for a target: it does not look under a star. */
  function TargetNames(t: Target): seq<string> {
    match t
    case NameTarget(id) => [id]
    case TupleTarget(elts) => TargetsNames(elts)
    case _ => []
  }

  function TargetsNames(ts: seq<Target>): seq<string> {
    if ts == [] then [] else TargetsNames(ts[..|ts| - 1]) + TargetNames(ts[|ts| - 1])
  }

  /** An assignment statement, or a loop that binds its targets to one item after
      the other; `inBranch` says whether it stands inside an if, loop, match or
      try statement of its scope. */
  datatype Assignment = Assignment(at: Position, scope: Scope, targets: seq<Target>, value: Expr, loop: bool, inBranch: bool)
  {
    function Names(): seq<string> { TargetsNames(targets) }

    predicate BranchLocal() { loop || inBranch }
  }

  type History = map<string, seq<Event<bool>>>

  type Histories = map<Scope, History>

  const LAST := Position(1000000000, 1000000000)

  function EventsOf(h: Histories, scope: Scope, name: string): seq<Event<bool>> {
    if scope in h && name in h[scope] then h[scope][name] else []
  }

  /** What the module as far as it is known ends up knowing about a name. */
  predicate ModuleKnows(h: Histories, name: string) {
    Resolve(false, Visible(EventsOf(h, Module, name), LAST), Or)
  }

  /** A function scope starts from what the module knows. */
  function InheritedEvents(h: Histories, scope: Scope, name: string): seq<Event<bool>> {
    if scope != Module && ModuleKnows(h, name)
    then [Event(Position(-1, -1), true, false)] + EventsOf(h, scope, name)
    else EventsOf(h, scope, name)
  }

  function NamesIn(h: Histories, scope: Scope): set<string> {
    if scope in h then h[scope].Keys else {}
  }

  /** The names that may hold a platform-derived value at a position. */
  function Materialize(h: Histories, scope: Scope, position: Position): set<string> {
    set n | n in NamesIn(h, scope) + NamesIn(h, Module)
      && Resolve(false, Visible(InheritedEvents(h, scope, n), position), Or) :: n
  }

  function Record(h: Histories, scope: Scope, name: string, event: Event<bool>): Histories {
    var history: History := if scope in h then h[scope] else map[];
    h[scope := history[name := EventsOf(h, scope, name) + [event]]]
  }

  function RecordAll(h: Histories, scope: Scope, names: seq<string>, event: Event<bool>): Histories {
    if names == [] then h
    else Record(RecordAll(h, scope, names[..|names| - 1], event), scope, names[|names| - 1], event)
  }

  function EventFor(h: Histories, a: Assignment, naming: Naming): Event<bool> {
    Event(a.at, Platformish(a.value, Materialize(h, a.scope, a.at), naming), a.BranchLocal())
  }

  /** The histories after the assignments, in source order. */
  function HistoriesOf(assignments: seq<Assignment>, naming: Naming): Histories {
    if assignments == [] then map[]
    else
      var a := assignments[|assignments| - 1];
      var h := HistoriesOf(assignments[..|assignments| - 1], naming);
      RecordAll(h, a.scope, a.Names(), EventFor(h, a, naming))
  }

  method BuildHistories(assignments: seq<Assignment>, naming: Naming) returns (h: Histories)
    ensures h == HistoriesOf(assignments, naming)
  {
    h := map[];
    for i := 0 to |assignments|
      invariant h == HistoriesOf(assignments[..i], naming)
    {
      assert assignments[..i + 1][..i] == assignments[..i];
      ghost var before := h;
      var a := assignments[i];
      var event := EventFor(h, a, naming);
      var names := a.Names();
      for j := 0 to |names|
        invariant h == RecordAll(before, a.scope, names[..j], event)
      {
        assert names[..j + 1][..j] == names[..j];
        h := Record(h, a.scope, names[j], event);
      }
      assert names[..|names|] == names;
    }
    assert assignments[..|assignments|] == assignments;
  }

  // ------------------------------------------------------- events in histories

  /** One event for each time an assignment binds the name. */
  function Bindings(names: seq<string>, name: string, event: Event<bool>): seq<Event<bool>> {
    if names == [] then []
    else Bindings(names[..|names| - 1], name, event) + if names[|names| - 1] == name then [event] else []
  }

  lemma {:induction false} RecordAllAppends(h: Histories, scope: Scope, names: seq<string>, event: Event<bool>,
                                            s: Scope, name: string)
    ensures EventsOf(RecordAll(h, scope, names, event), s, name) ==
            EventsOf(h, s, name) + if s == scope then Bindings(names, name, event) else []
  {
    if names != [] {
      RecordAllAppends(h, scope, names[..|names| - 1], event, s, name);
    }
  }

  lemma {:induction false} BindingsAreTheEvent(names: seq<string>, name: string, event: Event<bool>)
    ensures forall i :: 0 <= i < |Bindings(names, name, event)| ==> Bindings(names, name, event)[i] == event
    ensures name in names <==> Bindings(names, name, event) != []
  {
    if names != [] {
      var n := |names| - 1;
      BindingsAreTheEvent(names[..n], name, event);
      assert names == names[..n] + [names[n]];
    }
  }

  lemma {:induction false} ResolveBindings(initial: bool, events: seq<Event<bool>>, more: seq<Event<bool>>,
                                           event: Event<bool>)
    requires forall i :: 0 <= i < |more| ==> more[i] == event
    ensures Resolve(initial, events + more, Or) ==
            if more == [] then Resolve(initial, events, Or)
            else if event.branchLocal then Resolve(initial, events, Or) || event.value
            else event.value
  {
    if more == [] {
      assert events + more == events;
    } else {
      var n := |more| - 1;
      assert (events + more)[..|events| + n] == events + more[..n];
      ResolveBindings(initial, events, more[..n], event);
    }
  }

  /** How one more assignment changes what a scope knows about a name. */
  lemma KnowledgeAfter(assignments: seq<Assignment>, naming: Naming, scope: Scope, name: string, initial: bool)
    requires assignments != []
    ensures var a := assignments[|assignments| - 1];
            var h := HistoriesOf(assignments[..|assignments| - 1], naming);
            var before := Resolve(initial, EventsOf(h, scope, name), Or);
            var value := EventFor(h, a, naming).value;
            Resolve(initial, EventsOf(HistoriesOf(assignments, naming), scope, name), Or) ==
            if a.scope != scope || name !in a.Names() then before
            else if a.BranchLocal() then before || value
            else value
  {
    hide Platformish, Materialize;
    var a := assignments[|assignments| - 1];
    var h := HistoriesOf(assignments[..|assignments| - 1], naming);
    var event := EventFor(h, a, naming);
    RecordAllAppends(h, a.scope, a.Names(), event, scope, name);
    BindingsAreTheEvent(a.Names(), name, event);
    ResolveBindings(initial, EventsOf(h, scope, name), Bindings(a.Names(), name, event), event);
    assert EventsOf(h, scope, name) + [] == EventsOf(h, scope, name);
  }

  /** Source order: later in the list, later in the file. */
  ghost predicate Sorted(assignments: seq<Assignment>) {
    && (forall i, j :: 0 <= i < j < |assignments| ==> Before(assignments[i].at, assignments[j].at))
    && (forall i :: 0 <= i < |assignments| ==>
          Before(Position(-1, -1), assignments[i].at) && Before(assignments[i].at, LAST))
  }

  /** The events of a history are those of the assignments it was built from. */
  lemma {:induction false} EventsComeFromAssignments(assignments: seq<Assignment>, naming: Naming, scope: Scope,
                                                     name: string)
    ensures forall e :: e in EventsOf(HistoriesOf(assignments, naming), scope, name) ==>
              exists i :: 0 <= i < |assignments| && assignments[i].at == e.at
  {
    hide Platformish, Materialize;
    if assignments != [] {
      var n := |assignments| - 1;
      var a := assignments[n];
      var h := HistoriesOf(assignments[..n], naming);
      var event := EventFor(h, a, naming);
      EventsComeFromAssignments(assignments[..n], naming, scope, name);
      RecordAllAppends(h, a.scope, a.Names(), event, scope, name);
      BindingsAreTheEvent(a.Names(), name, event);
      forall e | e in EventsOf(HistoriesOf(assignments, naming), scope, name)
        ensures exists i :: 0 <= i < |assignments| && assignments[i].at == e.at
      {
        if e in EventsOf(h, scope, name) {
          var i :| 0 <= i < n && assignments[..n][i].at == e.at;
          assert assignments[i].at == e.at;
        } else {
          assert e == event && assignments[n].at == e.at;
        }
      }
    }
  }

  lemma EventsAreVisible(assignments: seq<Assignment>, naming: Naming, scope: Scope, name: string, p: Position)
    requires forall i :: 0 <= i < |assignments| ==> Before(assignments[i].at, p)
    ensures Visible(EventsOf(HistoriesOf(assignments, naming), scope, name), p) ==
            EventsOf(HistoriesOf(assignments, naming), scope, name)
  {
    var events := EventsOf(HistoriesOf(assignments, naming), scope, name);
    EventsComeFromAssignments(assignments, naming, scope, name);
    forall j | 0 <= j < |events|
      ensures Before(events[j].at, p)
    {
      assert events[j] in events;
    }
    VisibleAll(events, p);
  }

  lemma {:induction false} VisibleOfAppended(events: seq<Event<bool>>, later: seq<Event<bool>>, p: Position)
    requires forall j :: 0 <= j < |events| ==> Before(events[j].at, p)
    requires forall j :: 0 <= j < |later| ==> !Before(later[j].at, p)
    ensures Visible(events + later, p) == events
  {
    if events == [] {
      assert events + later == later;
    } else {
      assert (events + later)[1..] == events[1..] + later;
      VisibleOfAppended(events[1..], later, p);
    }
  }

  /** Looking at a position in the finished histories is looking at the
      histories of the assignments in front of it. */
  lemma {:induction false} VisibleIsPrefix(assignments: seq<Assignment>, naming: Naming, k: nat, scope: Scope,
                                           name: string, p: Position)
    requires Sorted(assignments) && k <= |assignments|
    requires forall i :: 0 <= i < |assignments| ==> (Before(assignments[i].at, p) <==> i < k)
    ensures Visible(EventsOf(HistoriesOf(assignments, naming), scope, name), p) ==
            EventsOf(HistoriesOf(assignments[..k], naming), scope, name)
  {
    var later := LaterEvents(assignments, naming, k, scope, name, p);
    var events := EventsOf(HistoriesOf(assignments[..k], naming), scope, name);
    EventsComeFromAssignments(assignments[..k], naming, scope, name);
    forall j | 0 <= j < |events|
      ensures Before(events[j].at, p)
    {
      assert events[j] in events;
      var i :| 0 <= i < k && assignments[..k][i].at == events[j].at;
      assert assignments[i].at == events[j].at;
    }
    VisibleOfAppended(events, later, p);
  }

  /** The last assignment appends its bindings to the history of its scope. */
  lemma EventsOneMore(assignments: seq<Assignment>, naming: Naming, scope: Scope, name: string)
    requires assignments != []
    ensures var n := |assignments| - 1;
            var a, h := assignments[n], HistoriesOf(assignments[..n], naming);
            EventsOf(HistoriesOf(assignments, naming), scope, name) ==
            EventsOf(h, scope, name) + if scope == a.scope then Bindings(a.Names(), name, EventFor(h, a, naming)) else []
  {
    hide Platformish, Materialize, EventFor;
    var n := |assignments| - 1;
    var a, h := assignments[n], HistoriesOf(assignments[..n], naming);
    RecordAllAppends(h, a.scope, a.Names(), EventFor(h, a, naming), scope, name);
  }

  lemma {:induction false} LaterEvents(assignments: seq<Assignment>, naming: Naming, k: nat, scope: Scope,
                                       name: string, p: Position) returns (later: seq<Event<bool>>)
    requires k <= |assignments|
    requires forall i :: k <= i < |assignments| ==> !Before(assignments[i].at, p)
    ensures EventsOf(HistoriesOf(assignments, naming), scope, name) ==
            EventsOf(HistoriesOf(assignments[..k], naming), scope, name) + later
    ensures forall j :: 0 <= j < |later| ==> !Before(later[j].at, p)
    decreases |assignments|
  {
    hide Platformish, Materialize, HistoriesOf, EventsOf, Bindings, Before;
    var n := |assignments| - 1;
    if k == |assignments| {
      assert assignments[..k] == assignments;
      later := [];
    } else {
      var a := assignments[n];
      var event := EventFor(HistoriesOf(assignments[..n], naming), a, naming);
      var before := LaterEvents(assignments[..n], naming, k, scope, name, p);
      assert assignments[..n][..k] == assignments[..k];
      EventsOneMore(assignments, naming, scope, name);
      BindingsAreTheEvent(a.Names(), name, event);
      later := before + if scope == a.scope then Bindings(a.Names(), name, event) else [];
    }
  }
}
