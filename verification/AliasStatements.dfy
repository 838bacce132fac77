/** Statement trees: which assignments count as branch-local, what executing a
    tree passes, and why every execution, also one left midway, is a run that
    the alias analysis covers. */
module AliasStatements {
  import opened AliasResolve
  import opened AliasAnalysis
  import opened AliasValues
  import opened AliasRuns
  import opened AliasTheorems

  /** Branches stand for if, match and try statements with their arms or parts in
      source order; blocks for with statements, whose context managers may swallow
      exceptions.  The else part of a loop is a branch behind it.  The parts of a
      try statement with except* count as straight-line code: each is a block that
      may swallow exceptions, one behind the other, and the finally part follows
      them; a part that is not entered is left in front of its first assignment. */
  datatype Stmt =
    | Assign(at: Position, targets: seq<Target>, value: Expr)
    | For(at: Position, target: Target, iter: Expr, body: seq<Stmt>)
    | While(body: seq<Stmt>)
    | Branch(arms: seq<Arm>)
    | Block(swallows: bool, body: seq<Stmt>)
    | Def(id: nat, body: seq<Stmt>)

  datatype Arm = Arm(body: seq<Stmt>)

  // ----------------------------------------------------- assignments of a tree

  /** The assignments of a statement list in source order.  `inBranch` says
      whether the list stands inside a branch of its scope. */
  function Flatten(stmts: seq<Stmt>, scope: Scope, inBranch: bool): (flat: seq<Assignment>)
    ensures |flat| == SizeOf(stmts)
  {
    if stmts == [] then []
    else FlattenOne(stmts[0], scope, inBranch) + Flatten(stmts[1..], scope, inBranch)
  }

  function FlattenOne(s: Stmt, scope: Scope, inBranch: bool): (flat: seq<Assignment>)
    ensures |flat| == Size(s)
  {
    match s
    case Assign(at, targets, value) => [Assignment(at, scope, targets, value, false, inBranch)]
    case For(at, target, iter, body) =>
      [Assignment(at, scope, [target], iter, true, inBranch)] + Flatten(body, scope, true)
    case While(body) => Flatten(body, scope, true)
    case Branch(arms) => FlattenArms(arms, scope)
    case Block(_, body) => Flatten(body, scope, inBranch)
    case Def(id, body) => Flatten(body, Function(id), false)
  }

  function FlattenArms(arms: seq<Arm>, scope: Scope): (flat: seq<Assignment>)
    ensures |flat| == SizeOfArms(arms)
  {
    if arms == [] then [] else Flatten(arms[0].body, scope, true) + FlattenArms(arms[1..], scope)
  }

  function Size(s: Stmt): nat {
    match s
    case Assign(_, _, _) => 1
    case For(_, _, _, body) => 1 + SizeOf(body)
    case While(body) => SizeOf(body)
    case Branch(arms) => SizeOfArms(arms)
    case Block(_, body) => SizeOf(body)
    case Def(_, body) => SizeOf(body)
  }

  function SizeOf(stmts: seq<Stmt>): nat {
    if stmts == [] then 0 else Size(stmts[0]) + SizeOf(stmts[1..])
  }

  function SizeOfArms(arms: seq<Arm>): nat {
    if arms == [] then 0 else SizeOf(arms[0].body) + SizeOfArms(arms[1..])
  }

  function Both(a: Jumps, b: Jumps): Jumps {
    Jumps(a.back + b.back, a.out + b.out)
  }

  /** The ways of a list other than in source order: back from the end of a loop to
      its start, and out of the body of a block that may swallow exceptions.
      `base` assignments stand in front of the list, and control goes to one of
      `ends` behind it. */
  function JumpsOf(stmts: seq<Stmt>, base: nat, ends: set<nat>): Jumps {
    if stmts == [] then NO_JUMPS
    else
      Both(JumpsOfOne(stmts[0], base, FirstEnds(stmts, base, ends)), JumpsOf(stmts[1..], base + Size(stmts[0]), ends))
  }

  /** Where control goes behind the first statement of a list. */
  function FirstEnds(stmts: seq<Stmt>, base: nat, ends: set<nat>): set<nat>
    requires stmts != []
  {
    if SizeOf(stmts[1..]) == 0 then ends else {base + Size(stmts[0])}
  }

  function JumpsOfOne(s: Stmt, base: nat, ends: set<nat>): Jumps {
    match s
    case Assign(_, _, _) => NO_JUMPS
    case For(_, _, _, body) => Both(Jumps({(base + SizeOf(body), base)}, {}), JumpsOf(body, base + 1, ends + {base}))
    case While(body) => Both(BackTo(base, SizeOf(body)), JumpsOf(body, base, ends + {base}))
    case Branch(arms) => JumpsOfArms(arms, base, ends)
    case Block(swallows, body) => Both(if swallows then OutOf(base, SizeOf(body), ends) else NO_JUMPS, JumpsOf(body, base, ends))
    case Def(_, _) => NO_JUMPS
  }

  function BackTo(base: nat, size: nat): Jumps {
    Jumps(if size == 0 then {} else {(base + size - 1, base)}, {})
  }

  function OutOf(base: nat, size: nat, ends: set<nat>): Jumps {
    Jumps({}, set i, k | base <= i < base + size && k in ends :: (i, k))
  }

  function JumpsOfArms(arms: seq<Arm>, base: nat, ends: set<nat>): Jumps {
    if arms == [] then NO_JUMPS
    else
      Both(JumpsOf(arms[0].body, base, ArmEnds(arms, base, ends)), JumpsOfArms(arms[1..], base + SizeOf(arms[0].body), ends))
  }

  function ArmEnds(arms: seq<Arm>, base: nat, ends: set<nat>): set<nat>
    requires arms != []
  {
    if SizeOfArms(arms[1..]) == 0 then ends else {base + SizeOf(arms[0].body)}
  }

  // ------------------------------------------------------------------ executions

  /** An assignment that control passes. */
  datatype Pass = Pass(at: nat, executed: bool)

  /** Passing all assignments from one to another without executing them. */
  function Skip(first: nat, stop: nat): seq<Pass> {
    seq(if first <= stop then stop - first else 0, i requires 0 <= i => Pass(first + i, false))
  }

  /** Where control stands in source order when the last pass is over. */
  function Behind(trace: seq<Pass>, base: nat): nat {
    if trace == [] then base else trace[|trace| - 1].at + 1
  }

  /** What executing a statement list to its end passes: all its statements one
      after the other. */
  ghost predicate Executes(stmts: seq<Stmt>, base: nat, trace: seq<Pass>)
    decreases stmts, 0
  {
    if stmts == [] then trace == []
    else
      exists i :: 0 <= i <= |trace| && ExecutesOne(stmts[0], base, trace[..i])
        && Executes(stmts[1..], base + Size(stmts[0]), trace[i..])
  }

  /** A loop runs its body any number of times, a branch any of its arms; the body
      of a block is left midway when its exception is swallowed; a nested function
      runs nothing of this scope. */
  ghost predicate ExecutesOne(s: Stmt, base: nat, trace: seq<Pass>)
    decreases s, 0
  {
    match s
    case Assign(_, _, _) => trace == [Pass(base, true)]
    case For(_, _, _, body) => Rounds(s, base, trace)
    case While(body) => Rounds(s, base, trace)
    case Branch(arms) => EntersArms(arms, base, trace)
    case Block(swallows, body) => Executes(body, base, trace) || (swallows && IsAbandoned(body, base, trace))
    case Def(_, body) => trace == Skip(base, base + Size(s))
  }

  /** A body left in front of one of its assignments. */
  ghost predicate IsAbandoned(body: seq<Stmt>, base: nat, trace: seq<Pass>)
    decreases body, 1
  {
    exists whole: seq<Pass>, j: nat :: 0 <= j < |whole| && Executes(body, base, whole) && trace == Abandoned(whole, j)
  }

  function Abandoned(whole: seq<Pass>, j: nat): seq<Pass>
    requires j < |whole|
  {
    whole[..j] + [Pass(whole[j].at, false)]
  }

  /** A body that is entered is left at its end or at any point of its execution,
      by an exception, a break, a continue or a return; left at once, it is not
      executed at all. */
  ghost predicate Enters(body: seq<Stmt>, base: nat, trace: seq<Pass>)
    decreases body, 1
  {
    exists whole, j :: 0 <= j <= |whole| && Executes(body, base, whole) && trace == LeftAt(body, base, whole, j)
  }

  function LeftAt(body: seq<Stmt>, base: nat, whole: seq<Pass>, j: nat): seq<Pass>
    requires j <= |whole|
  {
    whole[..j] + Skip(Behind(whole[..j], base), base + SizeOf(body))
  }

  ghost predicate EntersArms(arms: seq<Arm>, base: nat, trace: seq<Pass>)
    decreases arms, 2
  {
    if arms == [] then trace == []
    else
      exists i :: 0 <= i <= |trace| && Enters(arms[0].body, base, trace[..i])
        && EntersArms(arms[1..], base + SizeOf(arms[0].body), trace[i..])
  }

  /** One round of a loop; the one in which a for loop takes no item is its last. */
  ghost predicate Round(s: Stmt, base: nat, trace: seq<Pass>)
    requires s.For? || s.While?
    decreases s.body, 2
  {
    match s
    case While(body) => Enters(body, base, trace)
    case For(_, _, _, body) =>
      || trace == Skip(base, base + Size(s))
      || (|trace| > 0 && trace[0] == Pass(base, true) && Enters(body, base + 1, trace[1..]))
  }

  ghost predicate Rounds(s: Stmt, base: nat, trace: seq<Pass>)
    requires s.For? || s.While?
    decreases s.body, 3, |trace|
  {
    || Round(s, base, trace)
    || exists i :: 0 < i < |trace| && Round(s, base, trace[..i]) && Rounds(s, base, trace[i..])
  }

  // ---------------------------------------------------- executions are linked passes

  /** Scopes are told apart: no function nested in the list has the id. */
  predicate Fresh(stmts: seq<Stmt>, scope: Scope) {
    forall i :: 0 <= i < |stmts| ==> FreshOne(stmts[i], scope)
  }

  predicate FreshOne(s: Stmt, scope: Scope) {
    match s
    case Assign(_, _, _) => true
    case For(_, _, _, body) => Fresh(body, scope)
    case While(body) => Fresh(body, scope)
    case Branch(arms) => forall i :: 0 <= i < |arms| ==> Fresh(arms[i].body, scope)
    case Block(_, body) => Fresh(body, scope)
    case Def(id, body) => Function(id) != scope && Fresh(body, scope)
  }

  /** Assignments inside a branch, or of nested functions, are never straight-line
      assignments of the scope. */
  predicate NothingStraight(assignments: seq<Assignment>, scope: Scope) {
    forall i :: 0 <= i < |assignments| ==> assignments[i].scope != scope || assignments[i].BranchLocal()
  }

  lemma {:induction false} BranchesAreLocal(stmts: seq<Stmt>, scope: Scope, at: Scope, inBranch: bool)
    requires Fresh(stmts, scope) && (at != scope || inBranch)
    ensures NothingStraight(Flatten(stmts, at, inBranch), scope)
  {
    if stmts != [] {
      BranchIsLocal(stmts[0], scope, at, inBranch);
      BranchesAreLocal(stmts[1..], scope, at, inBranch);
    }
  }

  lemma {:induction false} BranchIsLocal(s: Stmt, scope: Scope, at: Scope, inBranch: bool)
    requires FreshOne(s, scope) && (at != scope || inBranch)
    ensures NothingStraight(FlattenOne(s, at, inBranch), scope)
  {
    match s
    case Assign(_, _, _) =>
    case For(_, _, _, body) => BranchesAreLocal(body, scope, at, true);
    case While(body) => BranchesAreLocal(body, scope, at, true);
    case Branch(arms) => ArmsAreLocal(arms, scope, at);
    case Block(_, body) => BranchesAreLocal(body, scope, at, inBranch);
    case Def(id, body) => BranchesAreLocal(body, scope, Function(id), false);
  }

  lemma {:induction false} ArmsAreLocal(arms: seq<Arm>, scope: Scope, at: Scope)
    requires forall i :: 0 <= i < |arms| ==> Fresh(arms[i].body, scope)
    ensures NothingStraight(FlattenArms(arms, at), scope)
  {
    if arms != [] {
      BranchesAreLocal(arms[0].body, scope, at, true);
      ArmsAreLocal(arms[1..], scope, at);
    }
  }

  predicate PassLeads(assignments: seq<Assignment>, jumps: Jumps, scope: Scope, p: Pass, k: nat) {
    && p.at < |assignments| && k <= |assignments|
    && (|| (Follows(jumps, p.at, k)
            && (assignments[p.at].scope == scope && !assignments[p.at].BranchLocal() ==> p.executed))
        || ((p.at, k) in jumps.out && !p.executed))
  }

  /** Each pass leads to the next one, and the straight-line assignments of the
      scope are executed unless control leaves there. */
  predicate Linked(assignments: seq<Assignment>, jumps: Jumps, scope: Scope, trace: seq<Pass>, first: nat, stop: nat) {
    if trace == [] then first == stop
    else
      var p := trace[|trace| - 1];
      PassLeads(assignments, jumps, scope, p, stop) && Linked(assignments, jumps, scope, trace[..|trace| - 1], first, p.at)
  }

  predicate Within(trace: seq<Pass>, lo: nat, hi: nat) {
    forall i :: 0 <= i < |trace| ==> lo <= trace[i].at < hi
  }

  predicate Located(assignments: seq<Assignment>, flat: seq<Assignment>, base: nat) {
    base + |flat| <= |assignments| && assignments[base..base + |flat|] == flat
  }

  lemma LocatedParts(assignments: seq<Assignment>, a: seq<Assignment>, b: seq<Assignment>, base: nat)
    requires Located(assignments, a + b, base)
    ensures Located(assignments, a, base) && Located(assignments, b, base + |a|)
  {
    assert assignments[base..base + |a|] == (a + b)[..|a|];
    assert assignments[base + |a|..base + |a| + |b|] == (a + b)[|a|..];
  }

  lemma {:induction false} LinkedConcat(assignments: seq<Assignment>, jumps: Jumps, scope: Scope, a: seq<Pass>, b: seq<Pass>,
                                        first: nat, middle: nat, stop: nat)
    requires Linked(assignments, jumps, scope, a, first, middle) && Linked(assignments, jumps, scope, b, middle, stop)
    ensures Linked(assignments, jumps, scope, a + b, first, stop)
  {
    hide PassLeads;
    if b == [] {
      assert a + b == a;
    } else {
      var n := |b| - 1;
      LinkedConcat(assignments, jumps, scope, a, b[..n], first, middle, b[n].at);
      assert (a + b)[..|a| + n] == a + b[..n];
    }
  }

  /** Where control stands in front of the `j`th pass, or at the end. */
  function Stands(trace: seq<Pass>, j: nat, stop: nat): nat {
    if j < |trace| then trace[j].at else stop
  }

  lemma {:induction false} LinkedPrefix(assignments: seq<Assignment>, jumps: Jumps, scope: Scope, trace: seq<Pass>,
                                        first: nat, stop: nat, j: nat)
    requires Linked(assignments, jumps, scope, trace, first, stop) && j <= |trace|
    ensures Linked(assignments, jumps, scope, trace[..j], first, Stands(trace, j, stop))
  {
    hide PassLeads;
    if j == |trace| {
      assert trace[..j] == trace;
    } else {
      var n := |trace| - 1;
      if j < n {
        LinkedPrefix(assignments, jumps, scope, trace[..n], first, trace[n].at, j);
        assert trace[..n][..j] == trace[..j];
      }
    }
  }

  lemma {:induction false} SkipIsLinked(assignments: seq<Assignment>, jumps: Jumps, scope: Scope, first: nat, stop: nat)
    requires first <= stop <= |assignments|
    requires forall i :: first <= i < stop ==> assignments[i].scope != scope || assignments[i].BranchLocal()
    ensures Linked(assignments, jumps, scope, Skip(first, stop), first, stop)
    decreases stop
  {
    if first < stop {
      SkipIsLinked(assignments, jumps, scope, first, stop - 1);
      var trace := Skip(first, stop);
      assert trace[..|trace| - 1] == Skip(first, stop - 1);
    }
  }

  /** The last pass may lead elsewhere. */
  lemma LinkedElsewhere(assignments: seq<Assignment>, jumps: Jumps, scope: Scope, trace: seq<Pass>, first: nat, stop: nat,
                        k: nat)
    requires trace != [] && Linked(assignments, jumps, scope, trace, first, stop)
    requires PassLeads(assignments, jumps, scope, trace[|trace| - 1], k)
    ensures Linked(assignments, jumps, scope, trace, first, k)
  {
    hide PassLeads;
  }

  /** Passing a part of the scope's assignments from its start to all of its ends. */
  predicate Crosses(assignments: seq<Assignment>, jumps: Jumps, scope: Scope, trace: seq<Pass>, base: nat, size: nat,
                    ends: set<nat>)
  {
    && (trace == [] <==> size == 0)
    && Within(trace, base, base + size)
    && forall k :: k in ends ==> trace != [] ==> Linked(assignments, jumps, scope, trace, base, k)
  }

  /** Control gets from the last assignment of a part to all of its ends. */
  predicate Ends(assignments: seq<Assignment>, jumps: Jumps, stop: nat, ends: set<nat>) {
    stop > 0 ==> forall k :: k in ends ==> k <= |assignments| && Follows(jumps, stop - 1, k)
  }

  predicate Included(a: Jumps, b: Jumps) {
    a.back <= b.back && a.out <= b.out
  }

  lemma CrossBoth(assignments: seq<Assignment>, jumps: Jumps, scope: Scope, a: seq<Pass>, b: seq<Pass>, base: nat,
                  m: nat, n: nat, ends: set<nat>)
    requires Crosses(assignments, jumps, scope, a, base, m, if n == 0 then ends else {base + m})
    requires Crosses(assignments, jumps, scope, b, base + m, n, ends)
    ensures Crosses(assignments, jumps, scope, a + b, base, m + n, ends)
  {
    hide Linked;
    if n == 0 {
      assert a + b == a;
    } else if m == 0 {
      assert a + b == b;
    } else {
      assert base + m in {base + m};
      forall k | k in ends
        ensures Linked(assignments, jumps, scope, a + b, base, k)
      {
        LinkedConcat(assignments, jumps, scope, a, b, base, base + m, k);
      }
    }
  }

  lemma SkipCrosses(assignments: seq<Assignment>, jumps: Jumps, scope: Scope, flat: seq<Assignment>, base: nat, ends: set<nat>)
    requires Located(assignments, flat, base) && NothingStraight(flat, scope)
    requires Ends(assignments, jumps, base + |flat|, ends)
    ensures Crosses(assignments, jumps, scope, Skip(base, base + |flat|), base, |flat|, ends)
  {
    hide Linked;
    forall i | base <= i < base + |flat|
      ensures assignments[i].scope != scope || assignments[i].BranchLocal()
    {
      assert assignments[i] == flat[i - base];
    }
    SkipIsLinked(assignments, jumps, scope, base, base + |flat|);
    forall k | k in ends && flat != []
      ensures Linked(assignments, jumps, scope, Skip(base, base + |flat|), base, k)
    {
      LinkedElsewhere(assignments, jumps, scope, Skip(base, base + |flat|), base, base + |flat|, k);
    }
  }

  lemma {:induction false} ExecutionCrosses(stmts: seq<Stmt>, scope: Scope, inBranch: bool, base: nat, trace: seq<Pass>,
                                            assignments: seq<Assignment>, jumps: Jumps, ends: set<nat>)
    requires Fresh(stmts, scope) && Executes(stmts, base, trace)
    requires Located(assignments, Flatten(stmts, scope, inBranch), base) && Included(JumpsOf(stmts, base, ends), jumps)
    requires Ends(assignments, jumps, base + SizeOf(stmts), ends)
    ensures Crosses(assignments, jumps, scope, trace, base, SizeOf(stmts), ends)
    decreases stmts, 0
  {
    hide ExecutesOne, Located, Crosses, Ends, Flatten, FlattenOne, JumpsOf, JumpsOfOne, Size, SizeOf, Fresh, FreshOne, Included;
    ListParts(stmts, scope, inBranch, base, ends, jumps);
    if stmts == [] {
      EmptyCrosses(assignments, jumps, scope, base, ends);
    } else {
      var s, rest := stmts[0], stmts[1..];
      var a, b := ExecutedParts(stmts, base, trace);
      LocatedParts(assignments, FlattenOne(s, scope, inBranch), Flatten(rest, scope, inBranch), base);
      NextEnds(assignments, jumps, Flatten(rest, scope, inBranch), base + Size(s));
      StatementCrosses(s, scope, inBranch, base, a, assignments, jumps, FirstEnds(stmts, base, ends));
      ExecutionCrosses(rest, scope, inBranch, base + Size(s), b, assignments, jumps, ends);
      CrossBoth(assignments, jumps, scope, a, b, base, Size(s), SizeOf(rest), ends);
    }
  }

  lemma ExecutedParts(stmts: seq<Stmt>, base: nat, trace: seq<Pass>) returns (a: seq<Pass>, b: seq<Pass>)
    requires stmts != [] && Executes(stmts, base, trace)
    ensures trace == a + b && ExecutesOne(stmts[0], base, a) && Executes(stmts[1..], base + Size(stmts[0]), b)
  {
    hide ExecutesOne, Size;
    var i :| 0 <= i <= |trace| && ExecutesOne(stmts[0], base, trace[..i])
      && Executes(stmts[1..], base + Size(stmts[0]), trace[i..]);
    a, b := trace[..i], trace[i..];
  }

  lemma ListParts(stmts: seq<Stmt>, scope: Scope, inBranch: bool, base: nat, ends: set<nat>, jumps: Jumps)
    requires Fresh(stmts, scope) && Included(JumpsOf(stmts, base, ends), jumps)
    ensures stmts == [] ==> SizeOf(stmts) == 0
    ensures stmts != [] ==>
              && Fresh(stmts[1..], scope) && FreshOne(stmts[0], scope)
              && SizeOf(stmts) == Size(stmts[0]) + SizeOf(stmts[1..])
              && Flatten(stmts, scope, inBranch) == FlattenOne(stmts[0], scope, inBranch) + Flatten(stmts[1..], scope, inBranch)
              && Included(JumpsOfOne(stmts[0], base, FirstEnds(stmts, base, ends)), jumps)
              && Included(JumpsOf(stmts[1..], base + Size(stmts[0]), ends), jumps)
  {
    hide FlattenOne, JumpsOfOne, FreshOne;
  }

  lemma NextEnds(assignments: seq<Assignment>, jumps: Jumps, rest: seq<Assignment>, stop: nat)
    requires Located(assignments, rest, stop)
    ensures Ends(assignments, jumps, stop, {stop})
  {
  }

  lemma EmptyCrosses(assignments: seq<Assignment>, jumps: Jumps, scope: Scope, base: nat, ends: set<nat>)
    ensures Crosses(assignments, jumps, scope, [], base, 0, ends)
  {
  }

  lemma {:induction false} StatementCrosses(s: Stmt, scope: Scope, inBranch: bool, base: nat, trace: seq<Pass>,
                                            assignments: seq<Assignment>, jumps: Jumps, ends: set<nat>)
    requires FreshOne(s, scope) && ExecutesOne(s, base, trace)
    requires Located(assignments, FlattenOne(s, scope, inBranch), base) && Included(JumpsOfOne(s, base, ends), jumps)
    requires Ends(assignments, jumps, base + Size(s), ends)
    ensures Crosses(assignments, jumps, scope, trace, base, Size(s), ends)
    decreases s, 0
  {
    hide Located, Crosses, Enters, EntersArms, Executes, Rounds, Ends, IsAbandoned;
    match s
    case Assign(at, targets, value) =>
      OnePassCrosses(assignments, jumps, scope, FlattenOne(s, scope, inBranch)[0], base, true, ends);
    case For(_, _, _, _) => RoundsCross(s, scope, inBranch, base, trace, assignments, jumps, ends);
    case While(_) => RoundsCross(s, scope, inBranch, base, trace, assignments, jumps, ends);
    case Branch(arms) => ArmsCross(arms, scope, base, trace, assignments, jumps, ends);
    case Block(swallows, body) =>
      if Executes(body, base, trace) {
        ExecutionCrosses(body, scope, inBranch, base, trace, assignments, jumps, ends);
      } else {
        AbandonedCrosses(body, scope, inBranch, base, trace, assignments, jumps, ends);
      }
    case Def(id, body) =>
      BranchesAreLocal(body, scope, Function(id), false);
      SkipCrosses(assignments, jumps, scope, Flatten(body, Function(id), false), base, ends);
  }

  lemma OnePassCrosses(assignments: seq<Assignment>, jumps: Jumps, scope: Scope, a: Assignment, base: nat, executed: bool,
                       ends: set<nat>)
    requires Located(assignments, [a], base) && Ends(assignments, jumps, base + 1, ends)
    requires a.scope == scope && !a.BranchLocal() ==> executed
    ensures Crosses(assignments, jumps, scope, [Pass(base, executed)], base, 1, ends)
  {
    var trace := [Pass(base, executed)];
    assert assignments[base..base + 1][0] == a;
    assert trace[..0] == [];
  }

  /** A block left midway: what it has passed is passed, and its exits lead on. */
  lemma AbandonedCrosses(body: seq<Stmt>, scope: Scope, inBranch: bool, base: nat, trace: seq<Pass>,
                         assignments: seq<Assignment>, jumps: Jumps, ends: set<nat>)
    requires Fresh(body, scope) && IsAbandoned(body, base, trace)
    requires Located(assignments, Flatten(body, scope, inBranch), base) && Included(JumpsOf(body, base, ends), jumps)
    requires Ends(assignments, jumps, base + SizeOf(body), ends) && Included(OutOf(base, SizeOf(body), ends), jumps)
    ensures Crosses(assignments, jumps, scope, trace, base, SizeOf(body), ends)
    decreases body, 1
  {
    hide Executes, Linked, Flatten, JumpsOf, Fresh, Follows, SizeOf, Ends;
    var whole: seq<Pass>, j: nat :| 0 <= j < |whole| && Executes(body, base, whole) && trace == Abandoned(whole, j);
    ExecutionCrosses(body, scope, inBranch, base, whole, assignments, jumps, ends);
    forall k | k in ends
      ensures Linked(assignments, jumps, scope, trace, base, k)
    {
      LinkedPrefix(assignments, jumps, scope, whole, base, k, j);
      assert (whole[j].at, k) in OutOf(base, SizeOf(body), ends).out;
      EndIsInside(assignments, jumps, Flatten(body, scope, inBranch), base, ends, k);
      LeavingIsLinked(assignments, jumps, scope, whole[..j], base, whole[j].at, k);
    }
  }

  lemma EndIsInside(assignments: seq<Assignment>, jumps: Jumps, flat: seq<Assignment>, base: nat, ends: set<nat>, k: nat)
    requires Located(assignments, flat, base) && flat != [] && Ends(assignments, jumps, base + |flat|, ends) && k in ends
    ensures k <= |assignments|
  {
  }

  lemma LeavingIsLinked(assignments: seq<Assignment>, jumps: Jumps, scope: Scope, trace: seq<Pass>, first: nat, at: nat,
                        k: nat)
    requires Linked(assignments, jumps, scope, trace, first, at) && at < |assignments| && k <= |assignments|
    requires (at, k) in jumps.out
    ensures Linked(assignments, jumps, scope, trace + [Pass(at, false)], first, k)
  {
    assert (trace + [Pass(at, false)])[..|trace|] == trace;
  }

  lemma {:induction false} EnteredCrosses(body: seq<Stmt>, scope: Scope, base: nat, trace: seq<Pass>,
                                          assignments: seq<Assignment>, jumps: Jumps, ends: set<nat>)
    requires Fresh(body, scope) && Enters(body, base, trace)
    requires Located(assignments, Flatten(body, scope, true), base) && Included(JumpsOf(body, base, ends), jumps)
    requires Ends(assignments, jumps, base + SizeOf(body), ends)
    ensures Crosses(assignments, jumps, scope, trace, base, SizeOf(body), ends)
    decreases body, 1
  {
    hide Executes, Linked, Flatten, JumpsOf, Fresh, Follows, SizeOf, Ends;
    var whole, j :| 0 <= j <= |whole| && Executes(body, base, whole) && trace == LeftAt(body, base, whole, j);
    ExecutionCrosses(body, scope, true, base, whole, assignments, jumps, ends);
    BranchesAreLocal(body, scope, scope, true);
    LeftCrosses(assignments, jumps, scope, Flatten(body, scope, true), base, whole, j, ends);
  }

  lemma LeftCrosses(assignments: seq<Assignment>, jumps: Jumps, scope: Scope, flat: seq<Assignment>, base: nat,
                    whole: seq<Pass>, j: nat, ends: set<nat>)
    requires Located(assignments, flat, base) && NothingStraight(flat, scope) && j <= |whole|
    requires Ends(assignments, jumps, base + |flat|, ends)
    requires Crosses(assignments, jumps, scope, whole, base, |flat|, ends)
    ensures Crosses(assignments, jumps, scope, whole[..j] + Skip(Behind(whole[..j], base), base + |flat|), base, |flat|, ends)
  {
    hide Linked, Located, Ends;
    var stop := base + |flat|;
    var next := Behind(whole[..j], base);
    var trace := whole[..j] + Skip(next, stop);
    assert base <= next <= stop;
    assert |trace| > 0 <==> flat != [];
    forall k | k in ends && trace != []
      ensures Linked(assignments, jumps, scope, trace, base, k)
    {
      LinkedPrefix(assignments, jumps, scope, whole, base, k, j);
      LocalPassesLeadOn(assignments, jumps, scope, flat, base, ends, k);
      if j == 0 {
        assert whole[..j] == [];
        EmptyIsLinked(assignments, jumps, scope, base);
      } else {
        LinkedElsewhere(assignments, jumps, scope, whole[..j], base, Stands(whole, j, k), if next == stop then k else next);
      }
      if next < stop {
        SkippedRest(assignments, jumps, scope, flat, base, next);
        LinkedConcat(assignments, jumps, scope, whole[..j], Skip(next, stop), base, next, stop);
        LinkedElsewhere(assignments, jumps, scope, trace, base, stop, k);
      } else {
        assert trace == whole[..j];
      }
    }
  }

  lemma EmptyIsLinked(assignments: seq<Assignment>, jumps: Jumps, scope: Scope, at: nat)
    ensures Linked(assignments, jumps, scope, [], at, at)
  {
  }

  /** In a branch every pass leads to the next assignment, and the last one to the
      ends. */
  lemma LocalPassesLeadOn(assignments: seq<Assignment>, jumps: Jumps, scope: Scope, flat: seq<Assignment>, base: nat,
                          ends: set<nat>, k: nat)
    requires Located(assignments, flat, base) && NothingStraight(flat, scope)
    requires Ends(assignments, jumps, base + |flat|, ends) && k in ends
    ensures forall p: Pass :: base <= p.at < base + |flat| ==> PassLeads(assignments, jumps, scope, p, p.at + 1)
    ensures forall p: Pass :: base <= p.at < base + |flat| && p.at + 1 == base + |flat| ==>
              PassLeads(assignments, jumps, scope, p, k)
  {
    forall p: Pass | base <= p.at < base + |flat|
      ensures assignments[p.at].scope != scope || assignments[p.at].BranchLocal()
    {
      assert assignments[p.at] == flat[p.at - base];
    }
  }

  lemma SkippedRest(assignments: seq<Assignment>, jumps: Jumps, scope: Scope, flat: seq<Assignment>, base: nat, next: nat)
    requires Located(assignments, flat, base) && NothingStraight(flat, scope) && base <= next <= base + |flat|
    ensures Linked(assignments, jumps, scope, Skip(next, base + |flat|), next, base + |flat|)
  {
    forall i | next <= i < base + |flat|
      ensures assignments[i].scope != scope || assignments[i].BranchLocal()
    {
      assert assignments[i] == flat[i - base];
    }
    SkipIsLinked(assignments, jumps, scope, next, base + |flat|);
  }

  lemma ArmParts(arms: seq<Arm>, scope: Scope, base: nat, ends: set<nat>, jumps: Jumps)
    requires Included(JumpsOfArms(arms, base, ends), jumps)
    ensures arms == [] ==> SizeOfArms(arms) == 0
    ensures arms != [] ==>
              && SizeOfArms(arms) == SizeOf(arms[0].body) + SizeOfArms(arms[1..])
              && FlattenArms(arms, scope) == Flatten(arms[0].body, scope, true) + FlattenArms(arms[1..], scope)
              && Included(JumpsOf(arms[0].body, base, ArmEnds(arms, base, ends)), jumps)
              && Included(JumpsOfArms(arms[1..], base + SizeOf(arms[0].body), ends), jumps)
  {
    hide Flatten, JumpsOf, SizeOf;
  }

  lemma EnteredParts(arms: seq<Arm>, base: nat, trace: seq<Pass>) returns (a: seq<Pass>, b: seq<Pass>)
    requires arms != [] && EntersArms(arms, base, trace)
    ensures trace == a + b && Enters(arms[0].body, base, a) && EntersArms(arms[1..], base + SizeOf(arms[0].body), b)
  {
    hide Enters, SizeOf;
    var i :| 0 <= i <= |trace| && Enters(arms[0].body, base, trace[..i])
      && EntersArms(arms[1..], base + SizeOf(arms[0].body), trace[i..]);
    a, b := trace[..i], trace[i..];
  }

  lemma {:induction false} ArmsCross(arms: seq<Arm>, scope: Scope, base: nat, trace: seq<Pass>,
                                     assignments: seq<Assignment>, jumps: Jumps, ends: set<nat>)
    requires (forall i :: 0 <= i < |arms| ==> Fresh(arms[i].body, scope)) && EntersArms(arms, base, trace)
    requires Located(assignments, FlattenArms(arms, scope), base) && Included(JumpsOfArms(arms, base, ends), jumps)
    requires Ends(assignments, jumps, base + SizeOfArms(arms), ends)
    ensures Crosses(assignments, jumps, scope, trace, base, SizeOfArms(arms), ends)
    decreases arms, 2
  {
    hide Enters, Located, Crosses, Ends, Fresh, Flatten, FlattenArms, JumpsOf, JumpsOfArms, SizeOf, SizeOfArms, Included;
    ArmParts(arms, scope, base, ends, jumps);
    if arms == [] {
      EmptyCrosses(assignments, jumps, scope, base, ends);
    } else {
      var body, rest := arms[0].body, arms[1..];
      var a, b := EnteredParts(arms, base, trace);
      LocatedParts(assignments, Flatten(body, scope, true), FlattenArms(rest, scope), base);
      NextEnds(assignments, jumps, FlattenArms(rest, scope), base + SizeOf(body));
      EnteredCrosses(body, scope, base, a, assignments, jumps, ArmEnds(arms, base, ends));
      ArmsCross(rest, scope, base + SizeOf(body), b, assignments, jumps, ends);
      CrossBoth(assignments, jumps, scope, a, b, base, SizeOf(body), SizeOfArms(rest), ends);
    }
  }

  lemma {:induction false} RoundCrosses(s: Stmt, scope: Scope, inBranch: bool, base: nat, trace: seq<Pass>,
                                        assignments: seq<Assignment>, jumps: Jumps, ends: set<nat>)
    requires (s.For? || s.While?) && FreshOne(s, scope) && Round(s, base, trace)
    requires Located(assignments, FlattenOne(s, scope, inBranch), base) && Included(JumpsOfOne(s, base, ends), jumps)
    requires Ends(assignments, jumps, base + Size(s), ends + {base})
    ensures Crosses(assignments, jumps, scope, trace, base, Size(s), ends + {base})
    decreases s.body, 2
  {
    hide Enters, Located, Crosses, Ends;
    match s
    case While(body) => EnteredCrosses(body, scope, base, trace, assignments, jumps, ends + {base});
    case For(at, target, iter, body) =>
      var a := Assignment(at, scope, [target], iter, true, inBranch);
      var flat := Flatten(body, scope, true);
      if trace == Skip(base, base + Size(s)) {
        BranchesAreLocal(body, scope, scope, true);
        assert NothingStraight([a] + flat, scope);
        SkipCrosses(assignments, jumps, scope, [a] + flat, base, ends + {base});
      } else {
        LocatedParts(assignments, [a], flat, base);
        NextEnds(assignments, jumps, flat, base + 1);
        OnePassCrosses(assignments, jumps, scope, a, base, true, if |flat| == 0 then ends + {base} else {base + 1});
        EnteredCrosses(body, scope, base + 1, trace[1..], assignments, jumps, ends + {base});
        CrossBoth(assignments, jumps, scope, [Pass(base, true)], trace[1..], base, 1, SizeOf(body), ends + {base});
        assert trace == [Pass(base, true)] + trace[1..];
      }
  }

  lemma {:induction false} RoundsCross(s: Stmt, scope: Scope, inBranch: bool, base: nat, trace: seq<Pass>,
                                       assignments: seq<Assignment>, jumps: Jumps, ends: set<nat>)
    requires (s.For? || s.While?) && FreshOne(s, scope) && Rounds(s, base, trace)
    requires Located(assignments, FlattenOne(s, scope, inBranch), base) && Included(JumpsOfOne(s, base, ends), jumps)
    requires Ends(assignments, jumps, base + Size(s), ends)
    ensures Crosses(assignments, jumps, scope, trace, base, Size(s), ends)
    decreases s.body, 3, |trace|
  {
    hide Round, Crosses, Flatten, JumpsOf, SizeOf;
    LoopEnds(s, base, assignments, jumps, ends);
    if Round(s, base, trace) {
      RoundCrosses(s, scope, inBranch, base, trace, assignments, jumps, ends);
      FewerEnds(assignments, jumps, scope, trace, base, Size(s), ends);
    } else {
      var i :| 0 < i < |trace| && Round(s, base, trace[..i]) && Rounds(s, base, trace[i..]);
      RoundCrosses(s, scope, inBranch, base, trace[..i], assignments, jumps, ends);
      RoundsCross(s, scope, inBranch, base, trace[i..], assignments, jumps, ends);
      NextRound(assignments, jumps, scope, trace[..i], trace[i..], base, Size(s), ends);
      assert trace[..i] + trace[i..] == trace;
    }
  }

  lemma LoopEnds(s: Stmt, base: nat, assignments: seq<Assignment>, jumps: Jumps, ends: set<nat>)
    requires (s.For? || s.While?) && base <= |assignments| && Included(JumpsOfOne(s, base, ends), jumps)
    requires Ends(assignments, jumps, base + Size(s), ends)
    ensures Ends(assignments, jumps, base + Size(s), ends + {base})
  {
  }

  lemma FewerEnds(assignments: seq<Assignment>, jumps: Jumps, scope: Scope, trace: seq<Pass>, base: nat, size: nat,
                  ends: set<nat>)
    requires Crosses(assignments, jumps, scope, trace, base, size, ends + {base})
    ensures Crosses(assignments, jumps, scope, trace, base, size, ends)
  {
    hide Linked;
  }

  /** Behind a round control may stand at the loop's start again. */
  lemma NextRound(assignments: seq<Assignment>, jumps: Jumps, scope: Scope, a: seq<Pass>, b: seq<Pass>, base: nat, size: nat,
                  ends: set<nat>)
    requires Crosses(assignments, jumps, scope, a, base, size, ends + {base})
    requires Crosses(assignments, jumps, scope, b, base, size, ends)
    ensures Crosses(assignments, jumps, scope, a + b, base, size, ends)
  {
    hide Linked;
    if size != 0 {
      assert base in ends + {base};
      forall k | k in ends
        ensures Linked(assignments, jumps, scope, a + b, base, k)
      {
        LinkedConcat(assignments, jumps, scope, a, b, base, base, k);
      }
    } else {
      assert a + b == [];
    }
  }

  // ------------------------------------------------------------- covered executions

  /** The run visits what the execution passes, as far as it goes, with values
      that the executed assignments may bind. */
  predicate Visits(assignments: seq<Assignment>, scope: Scope, run: seq<Visit>, trace: seq<Pass>) {
    && |run| <= |trace|
    && forall i :: 0 <= i < |run| ==>
         && run[i].at == trace[i].at && run[i].executed == trace[i].executed
         && (run[i].at < |assignments| && assignments[run[i].at].scope == scope && run[i].executed ==>
               Binds(assignments[run[i].at], run[i].value))
  }

  lemma {:induction false} LinkedVisitsAreRun(assignments: seq<Assignment>, jumps: Jumps, scope: Scope, run: seq<Visit>,
                                              trace: seq<Pass>, stop: nat)
    requires Linked(assignments, jumps, scope, trace, 0, stop) && Visits(assignments, scope, run, trace)
    requires |run| == |trace|
    ensures IsRun(assignments, jumps, scope, run, stop)
  {
    hide Binds, Follows;
    if run != [] {
      var n := |run| - 1;
      LinkedVisitsAreRun(assignments, jumps, scope, run[..n], trace[..n], trace[n].at);
    }
  }

  /** The jumps of a statement list that is the code of its scope. */
  function WholeJumps(stmts: seq<Stmt>, base: nat): Jumps {
    JumpsOf(stmts, base, {base + SizeOf(stmts)})
  }

  /** Where control stands when an execution of the list has passed `length`
      assignments. */
  function StandsAt(stmts: seq<Stmt>, base: nat, trace: seq<Pass>, length: nat): nat {
    Stands(Skip(0, base) + trace, length, base + SizeOf(stmts))
  }

  lemma ExecutionIsLinked(stmts: seq<Stmt>, scope: Scope, base: nat, trace: seq<Pass>, assignments: seq<Assignment>)
    requires Fresh(stmts, scope) && Executes(stmts, base, trace)
    requires Located(assignments, Flatten(stmts, scope, false), base) && NothingStraight(assignments[..base], scope)
    ensures Linked(assignments, WholeJumps(stmts, base), scope, Skip(0, base) + trace, 0, base + SizeOf(stmts))
  {
    hide Executes, Fresh, Flatten, Linked, JumpsOf, Skip, Within, Behind, Ends;
    var jumps, stop := WholeJumps(stmts, base), base + SizeOf(stmts);
    WholeEnds(assignments, jumps, Flatten(stmts, scope, false), base);
    ExecutionCrosses(stmts, scope, false, base, trace, assignments, jumps, {stop});
    forall i | 0 <= i < base
      ensures assignments[i].scope != scope || assignments[i].BranchLocal()
    {
      assert assignments[i] == assignments[..base][i];
    }
    SkipIsLinked(assignments, jumps, scope, 0, base);
    if trace == [] {
      assert Skip(0, base) + trace == Skip(0, base);
    } else {
      assert stop in {stop};
      LinkedConcat(assignments, jumps, scope, Skip(0, base), trace, 0, base, stop);
    }
  }

  lemma WholeEnds(assignments: seq<Assignment>, jumps: Jumps, flat: seq<Assignment>, base: nat)
    requires Located(assignments, flat, base)
    ensures Ends(assignments, jumps, base + |flat|, {base + |flat|})
  {
  }

  /** Every execution of the scope's statement list, run to its end or left at any
      point, is a run to where control stands then. */
  lemma ExecutionsAreRuns(stmts: seq<Stmt>, scope: Scope, base: nat, trace: seq<Pass>, assignments: seq<Assignment>,
                          run: seq<Visit>)
    requires Fresh(stmts, scope) && Executes(stmts, base, trace)
    requires Located(assignments, Flatten(stmts, scope, false), base) && NothingStraight(assignments[..base], scope)
    requires Visits(assignments, scope, run, Skip(0, base) + trace)
    ensures IsRun(assignments, WholeJumps(stmts, base), scope, run, StandsAt(stmts, base, trace, |run|))
  {
    hide Executes, Fresh, Flatten, Located, NothingStraight, Linked, Binds, IsRun, WholeJumps, Skip, Stands;
    var jumps := WholeJumps(stmts, base);
    var whole, stop := Skip(0, base) + trace, base + SizeOf(stmts);
    var front := whole[..|run|];
    ExecutionIsLinked(stmts, scope, base, trace, assignments);
    LinkedPrefix(assignments, jumps, scope, whole, 0, stop, |run|);
    assert Visits(assignments, scope, run, front);
    LinkedVisitsAreRun(assignments, jumps, scope, run, front, Stands(whole, |run|, stop));
  }

  /** For statement trees: if the analysis knows the starts, keeps every binding,
      and loops and early ends of blocks bring in nothing new, then wherever an
      execution stands it knows every name that holds a platform-derived value. */
  lemma ExecutionsAreCovered(stmts: seq<Stmt>, scope: Scope, base: nat, trace: seq<Pass>, assignments: seq<Assignment>,
                             naming: Naming, starts: Starts, run: seq<Visit>, initial: set<string>, p: Position)
    requires Fresh(stmts, scope) && Executes(stmts, base, trace)
    requires Located(assignments, Flatten(stmts, scope, false), base) && NothingStraight(assignments[..base], scope)
    requires Visits(assignments, scope, run, Skip(0, base) + trace)
    requires Sorted(assignments) && initial in starts
    requires StartsAreKnown(assignments, naming, scope, starts)
    requires BindingsAreKept(assignments, naming, WholeJumps(stmts, base), scope, starts)
    requires JumpsAreKnown(assignments, naming, WholeJumps(stmts, base), scope, starts)
    requires LeavesAreKnown(assignments, naming, WholeJumps(stmts, base), scope, starts)
    requires InFront(assignments, StandsAt(stmts, base, trace, |run|), p)
    ensures Derived(assignments, naming, scope, run, initial) <= Materialize(HistoriesOf(assignments, naming), scope, p)
  {
    hide Executes, Fresh, Flatten, Located, NothingStraight, IsRun, WholeJumps, Skip, StandsAt, Binds, Sorted, StartsAreKnown,
      BindingsAreKept, JumpsAreKnown, LeavesAreKnown, InFront, Derived, Materialize, RunsAreCovered;
    ExecutionsAreRuns(stmts, scope, base, trace, assignments, run);
    KeptMeansCovered(assignments, naming, WholeJumps(stmts, base), scope, starts);
    CoveredAt(assignments, naming, WholeJumps(stmts, base), scope, starts, StandsAt(stmts, base, trace, |run|), p, run,
              initial);
  }

  lemma CoveredAt(assignments: seq<Assignment>, naming: Naming, jumps: Jumps, scope: Scope, starts: Starts, k: nat,
                  p: Position, run: seq<Visit>, initial: set<string>)
    requires RunsAreCovered(assignments, naming, jumps, scope, starts)
    requires InFront(assignments, k, p) && IsRun(assignments, jumps, scope, run, k) && initial in starts
    ensures Derived(assignments, naming, scope, run, initial) <= Materialize(HistoriesOf(assignments, naming), scope, p)
  {
    hide InFront, IsRun, Derived, Materialize;
  }

  /** What the analysis answers behind a loop's body it answers at the loop's start,
      and what it answers inside a block that may be left midway it answers behind
      the block. */
  predicate JumpsBringNothing(assignments: seq<Assignment>, naming: Naming, scope: Scope, jumps: Jumps) {
    && (forall i, k :: 0 <= i < |assignments| && 0 <= k <= |assignments| && (i, k) in jumps.back ==>
          KnownAt(assignments, naming, scope, i + 1) <= KnownAt(assignments, naming, scope, k))
    && (forall i, k :: 0 <= i < |assignments| && 0 <= k <= |assignments| && (i, k) in jumps.out ==>
          KnownAt(assignments, naming, scope, i) <= KnownAt(assignments, naming, scope, k))
  }

  /** A module tree without hidden getters and stars of that kind: every execution
      is covered everywhere. */
  lemma PlainModuleExecutions(stmts: seq<Stmt>, trace: seq<Pass>, naming: Naming, run: seq<Visit>, p: Position)
    requires Fresh(stmts, Module) && Executes(stmts, 0, trace)
    requires var assignments := Flatten(stmts, Module, false);
             && Sorted(assignments) && Plain(assignments, naming, Module)
             && JumpsBringNothing(assignments, naming, Module, WholeJumps(stmts, 0))
             && Visits(assignments, Module, run, trace)
             && InFront(assignments, StandsAt(stmts, 0, trace, |run|), p)
    ensures var assignments := Flatten(stmts, Module, false);
            Derived(assignments, naming, Module, run, {}) <= Materialize(HistoriesOf(assignments, naming), Module, p)
  {
    hide Executes, Fresh, Flatten, IsRun, WholeJumps, Plain, Derived, Materialize, KnownAt, BuilderKnew, InFront, Sorted,
         RunsAreCovered, StandsAt;
    var assignments, jumps := Flatten(stmts, Module, false), WholeJumps(stmts, 0);
    assert Skip(0, 0) + trace == trace;
    assert assignments[0..0 + |assignments|] == assignments;
    ExecutionsAreRuns(stmts, Module, 0, trace, assignments, run);
    forall i | 0 <= i < |assignments| && assignments[i].scope == Module
      ensures KnownAt(assignments, naming, Module, i) <= BuilderKnew(assignments, naming, i)
    {
      BuilderKnowsTheModule(assignments, naming, i);
    }
    PlainScopesAreCovered(assignments, naming, jumps, Module, FROM_NOTHING);
    CoveredAt(assignments, naming, jumps, Module, FROM_NOTHING, StandsAt(stmts, 0, trace, |run|), p, run, {});
  }

  /** A with statement around one assignment may be left in front of it: the way
      on which the alias analysis misses a name. */
  lemma SuppressedBodyJumps(first: Stmt, second: Stmt)
    requires first.Assign? && second.Assign?
    ensures WholeJumps([first, Block(true, [second])], 0) == Jumps({}, {(1, 2)})
    ensures Executes([first, Block(true, [second])], 0, [Pass(0, true), Pass(1, false)])
  {
    var block := Block(true, [second]);
    var stmts := [first, block];
    assert stmts[1..] == [block] && [block][1..] == [] && [second][1..] == [];
    assert SizeOf([]) == 0 && SizeOf([second]) == 1 && SizeOf([block]) == 1;
    assert SizeOf(stmts) == 2;
    assert JumpsOf([second], 1, {2}) == NO_JUMPS;
    assert OutOf(1, 1, {2}).out == {(1, 2)};
    assert JumpsOfOne(block, 1, {2}) == Jumps({}, {(1, 2)});
    assert JumpsOf([block], 1, {2}) == Jumps({}, {(1, 2)});
    assert JumpsOfOne(first, 0, FirstEnds(stmts, 0, {2})) == NO_JUMPS;
    SingleExecutes(second, 1, [Pass(1, true)]);
    assert [Pass(1, false)] == Abandoned([Pass(1, true)], 0);
    assert IsAbandoned([second], 1, [Pass(1, false)]);
    SingleExecutes(block, 1, [Pass(1, false)]);
    var trace := [Pass(0, true), Pass(1, false)];
    assert trace[..1] == [Pass(0, true)] && trace[1..] == [Pass(1, false)];
  }

  lemma SingleExecutes(s: Stmt, base: nat, trace: seq<Pass>)
    requires ExecutesOne(s, base, trace)
    ensures Executes([s], base, trace)
  {
    hide ExecutesOne;
    assert trace[..|trace|] == trace && trace[|trace|..] == [] && [s][1..] == [];
    assert Executes([], base + Size(s), []);
  }
}
