/** Nothing is made up: every stack of every run is a path of the nondeterministic automaton. */
module GlrPaths {
  import opened Grammar
  import opened LrTables
  import opened GlrForest
  import opened GlrMachine
  import opened GlrLoose
  import opened GlrChoice
  import opened GlrTrace
  import opened GlrCyclic
  import opened GlrRun
  import opened GlrStack
  import opened GlrProcess
  import opened GlrReach
  import opened GlrParse
  import opened GlrTurns
  import opened GlrWork
  import opened GlrNondet
  import opened GlrComplete
  import opened GlrExact
  import opened UnitSteps
  import Thorough = GlrThorough
  import GlrReturn
  import GlrCompress

  /** The live stacks are paths of the automaton up to the position, and there is a path up to it. */
  ghost predicate OnPaths(d: GlrTables, text: seq<nat>, g: Glr) {
    && (forall k: nat | IsLive(g, k) :: Awaits(d, text, g.pos, StackOf(g, k)))
    && exists ss :: Awaits(d, text, g.pos, ss)
  }

  lemma AwaitsMore(d: GlrTables, text: seq<nat>, n: nat, ss: seq<nat>, r: nat)
    requires Awaits(d, text, n, ss) && Reducible(d, ss, TokenAt(text, n), r)
    ensures Awaits(d, text, n, Reduct(d.lr, ss, r))
  {
    hide Becomes, Reads, Reducible, Reduct;
    var start: seq<nat> :| Reads(d, text, n, start) && Becomes(d, TokenAt(text, n), start, ss);
    assert ReducesTo(d, TokenAt(text, n), ss, Reduct(d.lr, ss, r));
    BecomesLast(d, TokenAt(text, n), start, ss, Reduct(d.lr, ss, r));
  }

  lemma AwaitsNext(d: GlrTables, text: seq<nat>, n: nat, ss: seq<nat>, s': nat)
    requires Awaits(d, text, n, ss) && ShiftsTo(d, ss, TokenAt(text, n), s')
    ensures Awaits(d, text, n + 1, ss + [s'])
  {
    hide Becomes, ShiftsTo;
    assert Reads(d, text, n + 1, ss + [s']) by { ReadsNext(d, text, n, ss, s'); }
    BecomesSelf(d, TokenAt(text, n + 1), ss + [s']);
    AwaitsRead(d, text, n + 1, ss + [s']);
  }

  lemma ReadsNext(d: GlrTables, text: seq<nat>, n: nat, ss: seq<nat>, s': nat)
    requires Awaits(d, text, n, ss) && ShiftsTo(d, ss, TokenAt(text, n), s')
    ensures Reads(d, text, n + 1, ss + [s'])
  {
    hide Awaits, ShiftsTo;
  }

  lemma AwaitsRead(d: GlrTables, text: seq<nat>, n: nat, ss: seq<nat>)
    requires Reads(d, text, n, ss) && Becomes(d, TokenAt(text, n), ss, ss)
    ensures Awaits(d, text, n, ss)
  {
    hide Becomes, Reads;
  }

  lemma DefersOn(d: GlrTables, c: Certificate, text: seq<nat>, g: Glr, g': Glr, k: nat, r: nat)
    requires ConflictsChecked(d, c) && Lexed(d, text) && !Cyclic(c.g) && Safe(d, c, text, g) && g.split != NULL
    requires CanReduce(d, text, g, k, r) && DefersBy(d, g, g', k, r) && OnPaths(d, text, g)
    ensures OnPaths(d, text, g')
  {
    hide ConflictsChecked, Lexed, Cyclic, Safe, Path, GlrWork.Extends, Called, ReduceDeferred, Awaits, Reducible,
      Reduct, d.lr.Sized;
    var y := DefersPath(d, c, text, g, k, r);
    DefersSame(d, g, g', k, r);
    DeferOthers(d, g, g', k, r);
    AwaitsMore(d, text, g.pos, StackOf(g, k), r);
    forall j: nat | IsLive(g', j)
      ensures Awaits(d, text, g'.pos, StackOf(g', j))
    {
      if j != k {
        SafeTops(d, c, text, g);
        assert g'.tops[j] == g.tops[j] != NULL;
        PathExtends(g.cells, g'.cells, g.tops[j]);
      }
    }
  }

  lemma DeferOthers(d: GlrTables, g: Glr, g': Glr, k: nat, r: nat)
    requires DefersBy(d, g, g', k, r)
    ensures |g'.tops| == |g.tops| && g'.pos == g.pos
    ensures forall j | 0 <= j < |g.tops| && j != k :: g'.tops[j] == g.tops[j]
  {
    Thorough.ReducedExtends(d.lr, g, k, r);
    hide MergeTarget, Climb;
  }

  /** A reduction in deterministic operation is one of the automaton. */
  lemma NowReducible(d: GlrTables, c: Certificate, text: seq<nat>, g: Glr, r: nat)
    requires ConflictsChecked(d, c) && Lexed(d, text) && !Cyclic(c.g) && Single(d, c, text, g)
    requires CanReduce(d, text, g, 0, r)
    ensures |g.tops| == 1 && IsLive(g, 0) && Reducible(d, StackOf(g, 0), TokenAt(text, g.pos), r)
  {
    hide ConflictsChecked, Lexed, Cyclic, Single, Path, Inv, Safe, Timely, ReduceNow, Checked, ReductionSound, Called;
    SingleFacts(d, c, text, g);
    SafeSingle(d, c, text, g);
    ReducedNow(d, c, text, g, r);
    SinglePath(d, c, text, g);
    LastOfPath(g.cells, g.tops[0]);
  }

  lemma ReducesOn(d: GlrTables, c: Certificate, text: seq<nat>, g: Glr, g': Glr, r: nat)
    requires ConflictsChecked(d, c) && Lexed(d, text) && !Cyclic(c.g) && Safe(d, c, text, g) && g.split == NULL
    requires CanReduce(d, text, g, 0, r) && ReducesBy(d, g, g', r) && OnPaths(d, text, g)
    ensures OnPaths(d, text, g')
  {
    hide ConflictsChecked, Lexed, Cyclic, Safe, Path, CanReduce, ReduceNow, Awaits, Reducible, Reduct, d.lr.Sized;
    assert Single(d, c, text, g);
    NowReducible(d, c, text, g, r);
    ReducedPath(d, c, text, g, r);
    assert g' == NowReduced(d.lr, g, r);
    AwaitsMore(d, text, g.pos, StackOf(g, 0), r);
    assert forall k: nat | IsLive(g', k) :: k == 0;
  }

  lemma ShiftsOn(d: GlrTables, c: Certificate, text: seq<nat>, g: Glr, targets: seq<nat>)
    requires ConflictsChecked(d, c) && Lexed(d, text) && |targets| == |g.tops| > 0 && AllShift(d, text, g, targets)
    requires OnPaths(d, text, g)
    ensures OnPaths(d, text, ShiftAll(g, text, targets))
  {
    hide ConflictsChecked, Lexed, Path, ShiftFirst, Awaits, d.lr.Sized, d.lr.Action;
    var g' := ShiftAll(g, text, targets);
    forall k: nat | k < |g.tops|
      ensures Awaits(d, text, g'.pos, StackOf(g', k))
    {
      assert CanShift(d, text, g, k, targets[k]);
      ShiftedStack(d, c, text, g, targets, k);
      LastOfPath(g.cells, g.tops[k]);
      AwaitsNext(d, text, g.pos, StackOf(g, k), targets[k]);
    }
    assert Awaits(d, text, g'.pos, StackOf(g', 0));
  }

  lemma ReturnsOn(d: GlrTables, c: Certificate, text: seq<nat>, g: Glr, g': Glr)
    requires ConflictsChecked(d, c) && Safe(d, c, text, g) && Returns(d, c, text, g, g') && OnPaths(d, text, g)
    ensures OnPaths(d, text, g')
  {
    hide ConflictsChecked, Safe, Path, Awaits, GlrReturn.Resolution, Inv, GlrCompress.Above;
    SafeFacts(d, c, text, g, 0);
    var after :| GlrReturn.Resolution(d.lr, c, text, g, after) && g' == GlrCompress.Compress(g.(cells := after));
    GlrReturn.ReturnKeeps(d.lr, c, text, g, after);
    assert forall k: nat | IsLive(g', k) :: k == 0;
  }

  /** Every operation leads from paths to paths. */
  lemma NextOnPaths(d: GlrTables, c: Certificate, text: seq<nat>, g: Glr, g': Glr)
    requires ConflictsChecked(d, c) && Lexed(d, text) && !Cyclic(c.g) && Safe(d, c, text, g)
    requires Next(d, c, text, g, g') && OnPaths(d, text, g)
    ensures OnPaths(d, text, g')
  {
    hide ConflictsChecked, Lexed, Cyclic, Safe, Path, CanReduce, DefersBy, ReducesBy, Returns, AllShift, ShiftAll,
      CanDie, OnPaths;
    if Defers(d, text, g, g') {
      var k: nat, r: nat :| CanReduce(d, text, g, k, r) && DefersBy(d, g, g', k, r);
      DefersOn(d, c, text, g, g', k, r);
    } else if Reduces(d, text, g, g') {
      var r: nat :| CanReduce(d, text, g, 0, r) && ReducesBy(d, g, g', r);
      ReducesOn(d, c, text, g, g', r);
    } else if Shifts(d, text, g, g') {
      var targets: seq<nat> :|
        |targets| == |g.tops| && AllShift(d, text, g, targets) && g' == ShiftAll(g, text, targets);
      ShiftsOn(d, c, text, g, targets);
    } else if Returns(d, c, text, g, g') {
      ReturnsOn(d, c, text, g, g');
    } else {
      FewerStacks(d, text, g, g');
    }
  }

  lemma FewerStacks(d: GlrTables, text: seq<nat>, g: Glr, g': Glr)
    requires (Forks(g, g') || Dies(d, text, g, g') || Purges(g, g')) && OnPaths(d, text, g)
    ensures OnPaths(d, text, g')
  {
    hide Path, Awaits, CanDie;
    assert g'.cells == g.cells && g'.pos == g.pos && forall x | x in g'.tops && x != NULL :: x in g.tops by {
      SameTops(d, text, g, g');
    }
    forall k: nat | IsLive(g', k)
      ensures Awaits(d, text, g'.pos, StackOf(g', k))
    {
      assert g'.tops[k] in g'.tops;
      var j: nat :| j < |g.tops| && g.tops[j] == g'.tops[k];
      assert IsLive(g, j);
    }
  }

  lemma SameTops(d: GlrTables, text: seq<nat>, g: Glr, g': Glr)
    requires Forks(g, g') || Dies(d, text, g, g') || Purges(g, g')
    ensures g'.cells == g.cells && g'.pos == g.pos && forall x | x in g'.tops && x != NULL :: x in g.tops
  {
    hide d.lr.Action, d.lr.Sized;
  }

  /** Every live stack of a configuration that a run reaches is a path of the automaton. */
  lemma {:induction false} RunOnPaths(d: GlrTables, c: Certificate, text: seq<nat>, gs: seq<Glr>)
    requires ConflictsChecked(d, c) && Lexed(d, text) && !Cyclic(c.g) && GlrRun.Run(d, c, text, gs)
    ensures OnPaths(d, text, gs[|gs| - 1])
    decreases |gs|
  {
    hide Next, ConflictsChecked, Lexed, Cyclic, Safe, OnPaths;
    if |gs| == 1 {
      StartOnPath(d, text, gs[0]);
    } else {
      RunSafe(d, c, text, gs[..|gs| - 1]);
      RunOnPaths(d, c, text, gs[..|gs| - 1]);
      NextOnPaths(d, c, text, gs[|gs| - 2], gs[|gs| - 1]);
    }
  }

  lemma StartOnPath(d: GlrTables, text: seq<nat>, g: Glr)
    requires exists v :: g == Start(v)
    ensures OnPaths(d, text, g)
  {
    hide Becomes;
    BecomesSelf(d, TokenAt(text, 0), [0]);
    assert Reads(d, text, 0, [0]);
    AwaitsRead(d, text, 0, [0]);
    assert forall k: nat | IsLive(g, k) :: StackOf(g, k) == [0];
  }

  /** The parser reports a syntax error at token number `n` exactly when it is the first that no path of the automaton
      can shift: there is a path up to it, and none goes on. */
  lemma FirstError(d: GlrTables, sup: Supply, w: Priorities, merge: Merger, c: Certificate, text: seq<nat>, fuel: nat,
                   ps: seq<Point>, end: Point)
    returns (path: seq<nat>)
    requires ConflictsChecked(d, c) && Lexed(d, text) && !Cyclic(c.g)
    requires ps != [] && exists v :: ps[0].g == Start(v)
    requires Parses(d, sup, w, merge, c, text, fuel, ps, SyntaxError, end)
    ensures Awaits(d, text, end.g.pos, path) && Refused(d, text, end.g.pos)
  {
    hide ConflictsChecked, Lexed, Cyclic, Turn, GlrRun.Run, Refused, Awaits, OnPaths;
    SyntaxErrorIsReal(d, sup, w, merge, c, text, fuel, ps, end);
    var gs := ParseIsRun(d, sup, w, merge, c, text, fuel, ps, SyntaxError, end);
    RunOnPaths(d, c, text, gs);
    path := SomePath(d, text, end.g);
  }

  lemma SomePath(d: GlrTables, text: seq<nat>, g: Glr) returns (path: seq<nat>)
    requires OnPaths(d, text, g)
    ensures Awaits(d, text, g.pos, path)
  {
    hide Awaits;
    path :| Awaits(d, text, g.pos, path);
  }
}
