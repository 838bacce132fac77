/** What expressions evaluate to on a path, which part of a value each target
    name takes, and exactly when such a part may be platform-derived. */
module AliasValues {
  import opened AliasAnalysis

  // ---------------------------------------------------------------- evaluation

  /** `r` is `e` on a path: every conditional expression replaced by the arm
      that was evaluated, every walrus by its value. */
  predicate Evaluates(e: Expr, r: Expr) {
    match e
    case Conditional(_, b, o) => Evaluates(b, r) || Evaluates(o, r)
    case Walrus(_, v) => Evaluates(v, r)
    case Attribute(v, attr) => r.Attribute? && r.attr == attr && Evaluates(v, r.value)
    case Subscript(v, k) => r.Subscript? && r.key == k && Evaluates(v, r.value)
    case Call(f, args) => r.Call? && r.args == args && Evaluates(f, r.func)
    case Elements(ordered, elts) => r.Elements? && r.ordered == ordered && EvaluatesAll(elts, r.elts)
    case _ => r == e
  }

  predicate EvaluatesAll(elts: seq<Expr>, rs: seq<Expr>) {
    |rs| == |elts| && forall i :: 0 <= i < |elts| ==> Evaluates(elts[i], rs[i])
  }

  /** A chosen callee may turn out to be a getter. */
  predicate MayBeGetter(f: Expr) {
    match f
    case Conditional(_, b, o) => MayBeGetter(b) || MayBeGetter(o)
    case Walrus(_, v) => MayBeGetter(v)
    case Attribute(_, attr) => attr == "get"
    case _ => false
  }

  predicate FetchesPlatformKey(args: seq<Expr>, naming: Naming) {
    |args| > 0 && exists s :: s in Literals(args[0]) && naming(s)
  }

  /** Somewhere on the way to the value a platform key is fetched by a getter
      that a conditional or a walrus stands in front of. */
  predicate HidesGetter(e: Expr, naming: Naming) {
    match e
    case Conditional(_, b, o) => HidesGetter(b, naming) || HidesGetter(o, naming)
    case Walrus(_, v) => HidesGetter(v, naming)
    case Attribute(v, _) => HidesGetter(v, naming)
    case Subscript(v, _) => HidesGetter(v, naming)
    case Call(f, args) =>
      HidesGetter(f, naming) || (!f.Attribute? && MayBeGetter(f) && FetchesPlatformKey(args, naming))
    case Elements(_, elts) => exists i :: 0 <= i < |elts| && HidesGetter(elts[i], naming)
    case _ => false
  }

  predicate MayBePlatform(e: Expr, aliases: set<string>, naming: Naming) {
    Platformish(e, aliases, naming) || HidesGetter(e, naming)
  }

  lemma {:induction false} GetterIsEvaluated(f: Expr, r: Expr)
    requires Evaluates(f, r) && r.Attribute? && r.attr == "get"
    ensures MayBeGetter(f)
  {
    match f
    case Conditional(_, b, o) =>
      if Evaluates(b, r) {
        GetterIsEvaluated(b, r);
      } else {
        GetterIsEvaluated(o, r);
      }
    case Walrus(_, v) => GetterIsEvaluated(v, r);
    case _ =>
  }

  lemma {:induction false} EvaluationMayBePlatform(e: Expr, r: Expr, aliases: set<string>, naming: Naming)
    requires Evaluates(e, r) && Platformish(r, aliases, naming)
    ensures MayBePlatform(e, aliases, naming)
  {
    match e
    case Conditional(_, b, o) =>
      if Evaluates(b, r) {
        EvaluationMayBePlatform(b, r, aliases, naming);
      } else {
        EvaluationMayBePlatform(o, r, aliases, naming);
      }
    case Walrus(_, v) => EvaluationMayBePlatform(v, r, aliases, naming);
    case Attribute(v, attr) =>
      if !naming(attr) {
        EvaluationMayBePlatform(v, r.value, aliases, naming);
      }
    case Subscript(v, k) =>
      if Platformish(r.value, aliases, naming) {
        EvaluationMayBePlatform(v, r.value, aliases, naming);
      }
    case Call(f, args) =>
      if Platformish(r.func, aliases, naming) {
        EvaluationMayBePlatform(f, r.func, aliases, naming);
      } else {
        GetterIsEvaluated(f, r.func);
      }
    case Elements(_, elts) =>
      var i :| 0 <= i < |r.elts| && Platformish(r.elts[i], aliases, naming);
      EvaluationMayBePlatform(elts[i], r.elts[i], aliases, naming);
    case _ =>
  }

  lemma {:induction false} SomeEvaluation(e: Expr) returns (r: Expr)
    ensures Evaluates(e, r)
    ensures e.Attribute? ==> r.Attribute? && r.attr == e.attr
  {
    match e
    case Conditional(_, b, _) => r := SomeEvaluation(b);
    case Walrus(_, v) => r := SomeEvaluation(v);
    case Attribute(v, attr) =>
      r := SomeEvaluation(v);
      r := Attribute(r, attr);
    case Subscript(v, k) =>
      r := SomeEvaluation(v);
      r := Subscript(r, k);
    case Call(f, args) =>
      r := SomeEvaluation(f);
      r := Call(r, args);
    case Elements(ordered, elts) =>
      var items := SomeEvaluations(elts);
      r := Elements(ordered, items);
    case _ => r := e;
  }

  lemma {:induction false} SomeEvaluations(elts: seq<Expr>) returns (items: seq<Expr>)
    ensures EvaluatesAll(elts, items)
  {
    if elts == [] {
      items := [];
    } else {
      var first := SomeEvaluation(elts[0]);
      var rest := SomeEvaluations(elts[1..]);
      items := [first] + rest;
    }
  }

  lemma {:induction false} GetterEvaluation(f: Expr) returns (r: Expr)
    requires MayBeGetter(f)
    ensures Evaluates(f, r) && r.Attribute? && r.attr == "get"
  {
    match f
    case Conditional(_, b, o) =>
      if MayBeGetter(b) {
        r := GetterEvaluation(b);
      } else {
        r := GetterEvaluation(o);
      }
    case Walrus(_, v) => r := GetterEvaluation(v);
    case Attribute(_, _) => r := SomeEvaluation(f);
  }

  /** At most one name, and one of the known ones. */
  predicate Support(support: set<string>, known: set<string>) {
    support <= known && forall x, y :: x in support && y in support ==> x == y
  }

  /** A value that may be platform-derived is so on some evaluation, and one
      alias among the known ones is enough for it. */
  lemma {:induction false} PlatformEvaluation(e: Expr, known: set<string>, naming: Naming)
    returns (r: Expr, support: set<string>)
    requires MayBePlatform(e, known, naming)
    ensures Evaluates(e, r) && Platformish(r, support, naming) && Support(support, known)
  {
    match e
    case Walrus(_, v) => r, support := PlatformEvaluation(v, known, naming);
    case Conditional(_, b, o) =>
      if MayBePlatform(b, known, naming) {
        r, support := PlatformEvaluation(b, known, naming);
      } else {
        r, support := PlatformEvaluation(o, known, naming);
      }
    case Name(id) => r, support := e, if naming(id) then {} else {id};
    case Attribute(v, attr) =>
      if naming(attr) {
        r := SomeEvaluation(v);
        support := {};
      } else {
        r, support := PlatformEvaluation(v, known, naming);
      }
      r := Attribute(r, attr);
    case Subscript(v, k) =>
      if MayBePlatform(v, known, naming) {
        r, support := PlatformEvaluation(v, known, naming);
      } else {
        r := SomeEvaluation(v);
        support := {};
      }
      r := Subscript(r, k);
    case Call(f, args) =>
      if MayBePlatform(f, known, naming) {
        r, support := PlatformEvaluation(f, known, naming);
      } else if f.Attribute? {
        r := SomeEvaluation(f);
        support := {};
      } else {
        r := GetterEvaluation(f);
        support := {};
      }
      r := Call(r, args);
    case Elements(ordered, elts) =>
      var i :| 0 <= i < |elts| && MayBePlatform(elts[i], known, naming);
      var item, s := PlatformEvaluation(elts[i], known, naming);
      var items := SomeEvaluations(elts);
      r, support := Elements(ordered, items[i := item]), s;
      assert r.elts[i] == item;
  }

  /** The analysis' own test misses a platform-derived evaluation exactly when
      a getter is hidden. */
  lemma EvaluationsAreCoveredExactly(e: Expr, aliases: set<string>, naming: Naming)
    ensures (exists r :: Evaluates(e, r) && Platformish(r, aliases, naming)) <==>
            Platformish(e, aliases, naming) || HidesGetter(e, naming)
    ensures (forall r :: Evaluates(e, r) && Platformish(r, aliases, naming) ==> Platformish(e, aliases, naming)) <==>
            Platformish(e, aliases, naming) || !HidesGetter(e, naming)
  {
    forall r | Evaluates(e, r) && Platformish(r, aliases, naming)
      ensures MayBePlatform(e, aliases, naming)
    {
      EvaluationMayBePlatform(e, r, aliases, naming);
    }
    if MayBePlatform(e, aliases, naming) {
      var r, support := PlatformEvaluation(e, aliases, naming);
      PlatformishIsMonotone(r, support, aliases, naming);
      assert Evaluates(e, r) && Platformish(r, aliases, naming);
    }
  }

  // --------------------------------------------------------- parts of a value

  /** The names a target binds, those under a star included. */
  function Bound(t: Target): set<string> {
    match t
    case NameTarget(id) => {id}
    case TupleTarget(elts) => BoundByAny(elts)
    case StarTarget(inner) => Bound(inner)
    case OtherTarget => {}
  }

  function BoundByAny(ts: seq<Target>): set<string> {
    set i, n | 0 <= i < |ts| && n in Bound(ts[i]) :: n
  }

  function BoundNames(a: Assignment): set<string> {
    BoundByAny(a.targets)
  }

  predicate HasStar(ts: seq<Target>) {
    exists i :: 0 <= i < |ts| && ts[i].StarTarget?
  }

  predicate Fits(ts: seq<Target>, count: nat) {
    if HasStar(ts) then |ts| <= count + 1 else |ts| == count
  }

  /** What the `i`th target takes of an unpacked value: its element of a display
      that fits, the elements left over under a star, and otherwise something
      out of the whole value. */
  function Share(ts: seq<Target>, v: Expr, i: nat): Expr
    requires i < |ts|
  {
    if !IsDisplay(v) || !Fits(ts, |v.elts|) then v
    else if HasStar(ts[..i]) then v.elts[|v.elts| - (|ts| - i)]
    else if ts[i].StarTarget? then Elements(true, v.elts[i..|v.elts| - (|ts| - 1 - i)])
    else v.elts[i]
  }

  /** The last target that binds the name: later targets overwrite it. */
  function LastBinder(ts: seq<Target>, name: string): (i: nat)
    requires name in BoundByAny(ts)
    ensures i < |ts| && name in Bound(ts[i])
    ensures forall j :: i < j < |ts| ==> name !in Bound(ts[j])
  {
    var n := |ts| - 1;
    if name in Bound(ts[n]) then n
    else LastBinder(ts[..n], name)
  }

  /** The part of the value that the name takes. */
  function Part(t: Target, v: Expr, name: string): Expr
    requires name in Bound(t)
  {
    match t
    case NameTarget(_) => v
    case StarTarget(inner) => Part(inner, v, name)
    case TupleTarget(elts) => var i := LastBinder(elts, name); Part(elts[i], Share(elts, v, i), name)
  }

  /** All targets of an assignment take the same value. */
  function ValueOf(a: Assignment, v: Expr, name: string): Expr
    requires name in BoundNames(a)
  {
    Part(a.targets[LastBinder(a.targets, name)], v, name)
  }

  /** `v` is an item that a loop over the expression may take. */
  predicate Yields(e: Expr, v: Expr) {
    match e
    case Conditional(_, b, o) => Yields(b, v) || Yields(o, v)
    case Walrus(_, w) => Yields(w, v)
    case Elements(_, elts) => exists i :: 0 <= i < |elts| && Evaluates(elts[i], v)
    case _ => Evaluates(e, v)
  }

  /** The assignment may bind its targets to the value. */
  predicate Binds(a: Assignment, v: Expr) {
    if a.loop then Yields(a.value, v) else Evaluates(a.value, v)
  }

  /** Whether the part that the name takes of the expression may be
      platform-derived, read off the expression. */
  predicate PartMayBePlatform(t: Target, e: Expr, name: string, aliases: set<string>, naming: Naming)
    requires name in Bound(t)
    decreases t, e
  {
    match t
    case NameTarget(_) => MayBePlatform(e, aliases, naming)
    case StarTarget(inner) => PartMayBePlatform(inner, e, name, aliases, naming)
    case TupleTarget(elts) =>
      match e
      case Conditional(_, b, o) =>
        PartMayBePlatform(t, b, name, aliases, naming) || PartMayBePlatform(t, o, name, aliases, naming)
      case Walrus(_, w) => PartMayBePlatform(t, w, name, aliases, naming)
      case _ =>
        var i := LastBinder(elts, name);
        PartMayBePlatform(elts[i], Share(elts, e, i), name, aliases, naming)
  }

  predicate ItemMayBePlatform(t: Target, e: Expr, name: string, aliases: set<string>, naming: Naming)
    requires name in Bound(t)
    decreases e
  {
    match e
    case Conditional(_, b, o) =>
      ItemMayBePlatform(t, b, name, aliases, naming) || ItemMayBePlatform(t, o, name, aliases, naming)
    case Walrus(_, w) => ItemMayBePlatform(t, w, name, aliases, naming)
    case Elements(_, elts) => exists i :: 0 <= i < |elts| && PartMayBePlatform(t, elts[i], name, aliases, naming)
    case _ => PartMayBePlatform(t, e, name, aliases, naming)
  }

  /** The assignment may bind the name to a platform-derived value when `aliases`
      may hold such values. */
  predicate CanBind(a: Assignment, name: string, aliases: set<string>, naming: Naming)
    requires name in BoundNames(a)
  {
    var t := a.targets[LastBinder(a.targets, name)];
    if a.loop then ItemMayBePlatform(t, a.value, name, aliases, naming)
    else PartMayBePlatform(t, a.value, name, aliases, naming)
  }

  lemma ShareIsEvaluated(ts: seq<Target>, e: Expr, r: Expr, i: nat)
    requires i < |ts| && Evaluates(e, r) && !e.Conditional? && !e.Walrus?
    ensures Evaluates(Share(ts, e, i), Share(ts, r, i))
  {
    if IsDisplay(e) {
      assert IsDisplay(r) && |r.elts| == |e.elts|;
    }
  }

  /** Every evaluation of a share is the share of an evaluation. */
  lemma EvaluationOfShare(ts: seq<Target>, e: Expr, i: nat, s: Expr) returns (r: Expr)
    requires i < |ts| && !e.Conditional? && !e.Walrus? && Evaluates(Share(ts, e, i), s)
    ensures Evaluates(e, r) && Share(ts, r, i) == s
  {
    if !IsDisplay(e) || !Fits(ts, |e.elts|) {
      r := s;
    } else {
      var rs := SomeEvaluations(e.elts);
      if HasStar(ts[..i]) {
        r := Elements(true, rs[|rs| - (|ts| - i) := s]);
      } else if ts[i].StarTarget? {
        var hi := |rs| - (|ts| - 1 - i);
        r := Elements(true, rs[..i] + s.elts + rs[hi..]);
        assert r.elts[i..hi] == s.elts;
        forall j | 0 <= j < |rs|
          ensures Evaluates(e.elts[j], r.elts[j])
        {
          if i <= j < hi {
            assert r.elts[j] == s.elts[j - i] && e.elts[i..hi][j - i] == e.elts[j];
          }
        }
      } else {
        r := Elements(true, rs[i := s]);
      }
    }
  }

  lemma {:induction false} PartIsCovered(t: Target, e: Expr, r: Expr, name: string, aliases: set<string>, naming: Naming)
    requires name in Bound(t) && Evaluates(e, r) && Platformish(Part(t, r, name), aliases, naming)
    ensures PartMayBePlatform(t, e, name, aliases, naming)
    decreases t, e
  {
    hide Platformish, HidesGetter, Share;
    match t
    case NameTarget(_) => EvaluationMayBePlatform(e, r, aliases, naming);
    case StarTarget(inner) => PartIsCovered(inner, e, r, name, aliases, naming);
    case TupleTarget(elts) =>
      match e {
        case Conditional(_, b, o) =>
          if Evaluates(b, r) {
            PartIsCovered(t, b, r, name, aliases, naming);
          } else {
            PartIsCovered(t, o, r, name, aliases, naming);
          }
        case Walrus(_, w) => PartIsCovered(t, w, r, name, aliases, naming);
        case _ =>
          var i := LastBinder(elts, name);
          ShareIsEvaluated(elts, e, r, i);
          PartIsCovered(elts[i], Share(elts, e, i), Share(elts, r, i), name, aliases, naming);
      }
  }

  lemma {:induction false} PlatformPart(t: Target, e: Expr, name: string, known: set<string>, naming: Naming)
    returns (r: Expr, support: set<string>)
    requires name in Bound(t) && PartMayBePlatform(t, e, name, known, naming)
    ensures Evaluates(e, r) && Platformish(Part(t, r, name), support, naming) && Support(support, known)
    decreases t, e
  {
    hide Platformish, HidesGetter, Share, MayBePlatform;
    match t
    case NameTarget(_) => r, support := PlatformEvaluation(e, known, naming);
    case StarTarget(inner) => r, support := PlatformPart(inner, e, name, known, naming);
    case TupleTarget(elts) =>
      match e {
        case Conditional(_, b, o) =>
          if PartMayBePlatform(t, b, name, known, naming) {
            r, support := PlatformPart(t, b, name, known, naming);
          } else {
            r, support := PlatformPart(t, o, name, known, naming);
          }
        case Walrus(_, w) => r, support := PlatformPart(t, w, name, known, naming);
        case _ =>
          var i := LastBinder(elts, name);
          var s, support' := PlatformPart(elts[i], Share(elts, e, i), name, known, naming);
          r := EvaluationOfShare(elts, e, i, s);
          support := support';
      }
  }

  lemma {:induction false} ItemIsCovered(t: Target, e: Expr, v: Expr, name: string, aliases: set<string>, naming: Naming)
    requires name in Bound(t) && Yields(e, v) && Platformish(Part(t, v, name), aliases, naming)
    ensures ItemMayBePlatform(t, e, name, aliases, naming)
  {
    hide Platformish, PartMayBePlatform, Part, Evaluates;
    match e
    case Conditional(_, b, o) =>
      if Yields(b, v) {
        ItemIsCovered(t, b, v, name, aliases, naming);
      } else {
        ItemIsCovered(t, o, v, name, aliases, naming);
      }
    case Walrus(_, w) => ItemIsCovered(t, w, v, name, aliases, naming);
    case Elements(_, elts) =>
      var i :| 0 <= i < |elts| && Evaluates(elts[i], v);
      PartIsCovered(t, elts[i], v, name, aliases, naming);
    case _ => PartIsCovered(t, e, v, name, aliases, naming);
  }

  lemma {:induction false} PlatformItem(t: Target, e: Expr, name: string, known: set<string>, naming: Naming)
    returns (v: Expr, support: set<string>)
    requires name in Bound(t) && ItemMayBePlatform(t, e, name, known, naming)
    ensures Yields(e, v) && Platformish(Part(t, v, name), support, naming) && Support(support, known)
  {
    hide Platformish, PartMayBePlatform, Part, Evaluates;
    match e
    case Conditional(_, b, o) =>
      if ItemMayBePlatform(t, b, name, known, naming) {
        v, support := PlatformItem(t, b, name, known, naming);
      } else {
        v, support := PlatformItem(t, o, name, known, naming);
      }
    case Walrus(_, w) => v, support := PlatformItem(t, w, name, known, naming);
    case Elements(_, elts) =>
      var i :| 0 <= i < |elts| && PartMayBePlatform(t, elts[i], name, known, naming);
      v, support := PlatformPart(t, elts[i], name, known, naming);
    case _ => v, support := PlatformPart(t, e, name, known, naming);
  }

  /** What is read off an assignment is exactly what some evaluation of it does,
      and one of the aliases is enough for it. */
  lemma CanBindExactly(a: Assignment, name: string, aliases: set<string>, naming: Naming)
    requires name in BoundNames(a)
    ensures CanBind(a, name, aliases, naming) <==>
            exists v :: Binds(a, v) && Platformish(ValueOf(a, v, name), aliases, naming)
  {
    hide Platformish, PartMayBePlatform, ItemMayBePlatform, Part, Evaluates, Yields;
    var t := a.targets[LastBinder(a.targets, name)];
    forall v | Binds(a, v) && Platformish(ValueOf(a, v, name), aliases, naming)
      ensures CanBind(a, name, aliases, naming)
    {
      if a.loop {
        ItemIsCovered(t, a.value, v, name, aliases, naming);
      } else {
        PartIsCovered(t, a.value, v, name, aliases, naming);
      }
    }
    if CanBind(a, name, aliases, naming) {
      var v, support := PlatformBinding(a, name, aliases, naming);
      PlatformishIsMonotone(ValueOf(a, v, name), support, aliases, naming);
    }
  }

  lemma PlatformBinding(a: Assignment, name: string, known: set<string>, naming: Naming)
    returns (v: Expr, support: set<string>)
    requires name in BoundNames(a) && CanBind(a, name, known, naming)
    ensures Binds(a, v) && Platformish(ValueOf(a, v, name), support, naming) && Support(support, known)
  {
    hide Platformish, PartMayBePlatform, ItemMayBePlatform, Part, Evaluates, Yields;
    var t := a.targets[LastBinder(a.targets, name)];
    if a.loop {
      v, support := PlatformItem(t, a.value, name, known, naming);
    } else {
      v, support := PlatformPart(t, a.value, name, known, naming);
    }
  }
}
