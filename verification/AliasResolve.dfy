/** Event histories of one name and their resolution at a source position:
    straight-line assignments replace what is known, branch-local ones add to
    it. */
module AliasResolve {

  datatype Position = Position(line: int, column: int)

  predicate Before(a: Position, b: Position) {
    a.line < b.line || (a.line == b.line && a.column < b.column)
  }

  datatype Event<+V> = Event(at: Position, value: V, branchLocal: bool)

  /** The events in front of a position: resolution stops at the first event
      that is not. */
  function Visible<V>(events: seq<Event<V>>, position: Position): (visible: seq<Event<V>>)
    ensures visible <= events
  {
    if events == [] || !Before(events[0].at, position) then []
    else [events[0]] + Visible(events[1..], position)
  }

  /** What a history with the given initial knowledge amounts to. */
  function Resolve<V>(initial: V, events: seq<Event<V>>, join: (V, V) -> V): V {
    if events == [] then initial
    else
      var n := |events| - 1;
      if events[n].branchLocal then join(Resolve(initial, events[..n], join), events[n].value)
      else events[n].value
  }

  function Or(a: bool, b: bool): bool { a || b }

  function Union(a: set<string>, b: set<string>): set<string> { a + b }

  /** Known key literals, and whether a key may be dynamic. */
  datatype KeySignal = KeySignal(literals: set<string>, dynamic: bool)

  function Merge(a: KeySignal, b: KeySignal): KeySignal {
    KeySignal(a.literals + b.literals, a.dynamic || b.dynamic)
  }

  // ---------------------------------------------------------- the resolver loops

  lemma VisibleStep<V>(events: seq<Event<V>>, position: Position, i: nat)
    requires i < |events|
    requires forall j :: 0 <= j < i ==> Before(events[j].at, position)
    ensures i <= |Visible(events, position)| && Visible(events, position)[..i] == events[..i]
    ensures !Before(events[i].at, position) ==> Visible(events, position) == events[..i]
    ensures Before(events[i].at, position) ==> i + 1 <= |Visible(events, position)|
  {
    if i > 0 {
      VisibleStep(events[1..], position, i - 1);
    }
  }

  lemma VisibleAll<V>(events: seq<Event<V>>, position: Position)
    requires forall j :: 0 <= j < |events| ==> Before(events[j].at, position)
    ensures Visible(events, position) == events
  {
  }

  lemma ResolveOne<V>(initial: V, events: seq<Event<V>>, join: (V, V) -> V, i: nat)
    requires i < |events|
    ensures Resolve(initial, events[..i + 1], join) ==
            if events[i].branchLocal then join(Resolve(initial, events[..i], join), events[i].value)
            else events[i].value
  {
    assert events[..i + 1][..i] == events[..i];
  }

  lemma ResolveNone<V>(initial: V, events: seq<Event<V>>, join: (V, V) -> V)
    ensures Resolve(initial, events[..0], join) == initial
  {
  }

  method ResolveBooleanAlias(events: seq<Event<bool>>, position: Position) returns (known: bool)
    ensures known == Resolve(false, Visible(events, position), Or)
  {
    var active: set<bool> := {};
    var i := 0;
    while i < |events|
      invariant 0 <= i <= |events|
      invariant forall j :: 0 <= j < i ==> Before(events[j].at, position)
      invariant (true in active) == Resolve(false, events[..i], Or)
    {
      VisibleStep(events, position, i);
      if !Before(events[i].at, position) {
        return true in active;
      }
      ResolveOne(false, events, Or, i);
      if events[i].branchLocal {
        active := active + {events[i].value};
      } else {
        active := {events[i].value};
      }
      i := i + 1;
    }
    VisibleAll(events, position);
    assert events[..i] == events;
    known := true in active;
  }

  /** Container names and error-detail paths are resolved the same way. */
  method ResolveNames(events: seq<Event<set<string>>>, position: Position) returns (known: set<string>)
    ensures known == Resolve({}, Visible(events, position), Union)
  {
    hide Resolve, Visible, Before;
    known := {};
    ResolveNone({}, events, Union);
    var i := 0;
    while i < |events|
      invariant 0 <= i <= |events|
      invariant forall j :: 0 <= j < i ==> Before(events[j].at, position)
      invariant known == Resolve({}, events[..i], Union)
    {
      VisibleStep(events, position, i);
      if !Before(events[i].at, position) {
        return;
      }
      ResolveOne({}, events, Union, i);
      known := if events[i].branchLocal then known + events[i].value else events[i].value;
      i := i + 1;
    }
    VisibleAll(events, position);
    assert events[..i] == events;
  }

  method ResolveKeySignal(events: seq<Event<KeySignal>>, position: Position) returns (known: KeySignal)
    ensures known == Resolve(KeySignal({}, false), Visible(events, position), Merge)
  {
    hide Resolve, Visible, Before;
    assert Resolve(KeySignal({}, false), events[..0], Merge) == KeySignal({}, false) by {
      ResolveNone(KeySignal({}, false), events, Merge);
    }
    var literals: set<string>, dynamic := {}, false;
    var i := 0;
    while i < |events|
      invariant 0 <= i <= |events|
      invariant forall j :: 0 <= j < i ==> Before(events[j].at, position)
      invariant KeySignal(literals, dynamic) == Resolve(KeySignal({}, false), events[..i], Merge)
    {
      VisibleStep(events, position, i);
      if !Before(events[i].at, position) {
        return KeySignal(literals, dynamic);
      }
      ResolveOne(KeySignal({}, false), events, Merge, i);
      if events[i].branchLocal {
        literals, dynamic := literals + events[i].value.literals, dynamic || events[i].value.dynamic;
      } else {
        literals, dynamic := events[i].value.literals, events[i].value.dynamic;
      }
      i := i + 1;
    }
    VisibleAll(events, position);
    assert events[..i] == events;
    known := KeySignal(literals, dynamic);
  }

  // ------------------------------------------------------- what a path last wrote

  /** A path executes every straight-line assignment and some branch-local ones. */
  predicate OnPath<V>(events: seq<Event<V>>, executed: seq<bool>) {
    && |executed| == |events|
    && forall i :: 0 <= i < |events| ==> events[i].branchLocal || executed[i]
  }

  function LastWrite<V>(initial: V, events: seq<Event<V>>, executed: seq<bool>): V
    requires |executed| == |events|
  {
    if events == [] then initial
    else
      var n := |events| - 1;
      if executed[n] then events[n].value else LastWrite(initial, events[..n], executed[..n])
  }

  /** Resolution is exact: a name is known to hold exactly when some path wrote
      it last with that outcome. */
  lemma {:induction false} ResolveIsLastWrite(initial: bool, events: seq<Event<bool>>)
    ensures forall executed :: OnPath(events, executed) && LastWrite(initial, events, executed) ==>
              Resolve(initial, events, Or)
    ensures Resolve(initial, events, Or) ==>
              exists executed :: OnPath(events, executed) && LastWrite(initial, events, executed)
  {
    if events == [] {
      assert OnPath(events, []) && LastWrite(initial, events, []) == initial;
    } else {
      var n := |events| - 1;
      ResolveIsLastWrite(initial, events[..n]);
      forall executed | OnPath(events, executed) && LastWrite(initial, events, executed)
        ensures Resolve(initial, events, Or)
      {
        assert OnPath(events[..n], executed[..n]);
      }
      if events[n].value {
        var all := seq(n + 1, i => true);
        assert OnPath(events, all) && LastWrite(initial, events, all);
      } else if Resolve(initial, events, Or) {
        var executed :| OnPath(events[..n], executed) && LastWrite(initial, events[..n], executed);
        assert (executed + [false])[..n] == executed;
        assert OnPath(events, executed + [false]) && LastWrite(initial, events, executed + [false]);
      }
    }
  }

  /** The history of one name among those that set-valued events mention. */
  function Mentions(events: seq<Event<set<string>>>, name: string): seq<Event<bool>> {
    seq(|events|, i requires 0 <= i < |events| => Event(events[i].at, name in events[i].value, events[i].branchLocal))
  }

  lemma {:induction false} ResolveMentions(initial: set<string>, events: seq<Event<set<string>>>, name: string)
    ensures name in Resolve(initial, events, Union) <==> Resolve(name in initial, Mentions(events, name), Or)
  {
    if events != [] {
      var n := |events| - 1;
      assert Mentions(events, name)[..n] == Mentions(events[..n], name);
      ResolveMentions(initial, events[..n], name);
    }
  }

  lemma {:induction false} LastWriteMentions(initial: set<string>, events: seq<Event<set<string>>>, name: string,
                                             executed: seq<bool>)
    requires |executed| == |events|
    ensures name in LastWrite(initial, events, executed) <==>
            LastWrite(name in initial, Mentions(events, name), executed)
  {
    if events != [] {
      var n := |events| - 1;
      assert Mentions(events, name)[..n] == Mentions(events[..n], name);
      LastWriteMentions(initial, events[..n], name, executed[..n]);
    }
  }

  /** The same for containers and paths: a name is resolved exactly when some
      path's last write mentions it. */
  lemma ResolvedNamesAreLastWrites(initial: set<string>, events: seq<Event<set<string>>>, name: string)
    ensures name in Resolve(initial, events, Union) <==>
            exists executed :: OnPath(events, executed) && name in LastWrite(initial, events, executed)
  {
    var ms := Mentions(events, name);
    ResolveMentions(initial, events, name);
    ResolveIsLastWrite(name in initial, ms);
    forall executed: seq<bool> | |executed| == |events|
      ensures OnPath(events, executed) <==> OnPath(ms, executed)
      ensures name in LastWrite(initial, events, executed) <==> LastWrite(name in initial, ms, executed)
    {
      LastWriteMentions(initial, events, name, executed);
    }
    if name in Resolve(initial, events, Union) {
      var executed :| OnPath(ms, executed) && LastWrite(name in initial, ms, executed);
      assert OnPath(events, executed) && name in LastWrite(initial, events, executed);
    }
  }

  function SignalLiterals(events: seq<Event<KeySignal>>): seq<Event<set<string>>> {
    seq(|events|, i requires 0 <= i < |events| => Event(events[i].at, events[i].value.literals, events[i].branchLocal))
  }

  function SignalDynamics(events: seq<Event<KeySignal>>): seq<Event<bool>> {
    seq(|events|, i requires 0 <= i < |events| => Event(events[i].at, events[i].value.dynamic, events[i].branchLocal))
  }

  /** A key signal is resolved component by component, so both last-write
      characterisations above apply to it. */
  lemma {:induction false} KeySignalSplits(initial: KeySignal, events: seq<Event<KeySignal>>)
    ensures Resolve(initial, events, Merge) ==
            KeySignal(Resolve(initial.literals, SignalLiterals(events), Union),
                      Resolve(initial.dynamic, SignalDynamics(events), Or))
  {
    if events != [] {
      var n := |events| - 1;
      assert SignalLiterals(events)[..n] == SignalLiterals(events[..n]);
      assert SignalDynamics(events)[..n] == SignalDynamics(events[..n]);
      KeySignalSplits(initial, events[..n]);
    }
  }
}
