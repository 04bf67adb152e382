/** The GLR parser follows every path of the nondeterministic LR automaton, and no other. */
module GlrComplete {
  import opened Grammar
  import opened LrTables
  import opened GlrForest
  import opened GlrMachine
  import opened GlrCyclic
  import opened GlrRun
  import opened GlrStack
  import opened GlrProcess
  import opened GlrReach
  import opened GlrWork
  import opened GlrPursuit
  import opened GlrThorough
  import opened GlrNondet
  import opened UnitSteps

  /** The states on stack `k`, bottom first. */
  function StackOf(g: Glr, k: nat): seq<nat>
    requires k < |g.tops|
  {
    Path(g.cells, g.tops[k])
  }

  /** A deferred reduction of stack `k` is one of its path: the state `y` that it leads to is pushed, or merged with. */
  ghost predicate LeadsTo(d: GlrTables, g: Glr, g': Glr, k: nat, r: nat, y: Ref) {
    && k < |g.tops| && k < |g'.tops| && IsState(g'.cells, y)
    && Path(g'.cells, y) == Reduct(d.lr, StackOf(g, k), r)
    && if g'.tops[k] == NULL then
         y < |g.cells| && IsState(g.cells, y) && g.cells[y].sem.Chain? && g.cells[y].posn == g.pos
       else g'.tops[k] == y
  }

  /** The reduction merges with state `m`. */
  lemma MergesWith(t: Tables, g: Glr, k: nat, r: nat)
    requires t.Sized() && t.IsRule(r) && IsLive(g, k)
    requires IsState(g.cells, Base(t, g, k, r)) && g.cells[Base(t, g, k, r)].lr < t.NStates()
    ensures var m, base, g' := Merging(t, g, k, r), Base(t, g, k, r), ReduceDeferred(t, g, k, r);
      m != NULL ==>
        && IsState(g.cells, m) && g.cells[m].pred == base && g.cells[m].lr == Target(t, g.cells[base].lr, t.r1[r])
        && g'.tops == g.tops[k := NULL]
  {
    hide MergeTarget, Climb;
  }

  /** The reduction pushes a state. */
  lemma PushesNew(t: Tables, g: Glr, k: nat, r: nat)
    requires t.Sized() && t.IsRule(r) && IsLive(g, k)
    requires IsState(g.cells, Base(t, g, k, r)) && g.cells[Base(t, g, k, r)].lr < t.NStates()
    requires Merging(t, g, k, r) == NULL
    ensures var base, g', y := Base(t, g, k, r), ReduceDeferred(t, g, k, r), |g.cells|;
      && g'.tops == g.tops[k := y] && IsState(g'.cells, y)
      && g'.cells[y].pred == base && g'.cells[y].lr == Target(t, g.cells[base].lr, t.r1[r])
  {
    hide MergeTarget, Climb;
  }

  lemma PathOver(cells: Cells, y: Ref)
    requires IsState(cells, y) && cells[y].pred < y
    ensures Path(cells, y) == Path(cells, cells[y].pred) + [cells[y].lr]
  {
  }

  lemma DefersPath(d: GlrTables, c: Certificate, text: seq<nat>, g: Glr, k: nat, r: nat) returns (y: Ref)
    requires ConflictsChecked(d, c) && Lexed(d, text) && !Cyclic(c.g) && Safe(d, c, text, g) && g.split != NULL
    requires CanReduce(d, text, g, k, r)
    ensures DefersBy(d, g, Reduced(d.lr, g, k, r), k, r)
    ensures LeadsTo(d, g, Reduced(d.lr, g, k, r), k, r, y) && Reducible(d, StackOf(g, k), TokenAt(text, g.pos), r)
    ensures GlrWork.Extends(g.cells, Reduced(d.lr, g, k, r).cells)
  {
    hide ConflictsChecked, Lexed, Cyclic, Inv, Marked, Forest, Checked, ReductionSound, Called, Merging, Base, Climb,
      GlrWork.Extends, ReduceDeferred, Path, Target, Descending;
    DeferStep(d, c, text, g, k, r);
    var mark :| Inv(d.lr, c, text, g) && Marked(d.lr, c, text, g, mark);
    InvForest(d.lr, c, text, g);
    var t, x := d.lr, g.tops[k];
    PathFacts(d, c, text, g.cells, x, r);
    BaseClimbs(t, g, k, r);
    ReducedExtends(t, g, k, r);
    MergeTargetUnresolved(t, c, text, g, mark, k, r);
    MergesWith(t, g, k, r);
    var m, base := Merging(t, g, k, r), Base(t, g, k, r);
    var g' := Reduced(t, g, k, r);
    PathExtends(g.cells, g'.cells, base);
    if m != NULL {
      y := m;
      MergedPosition(t, c, text, g, k, r);
      PathExtends(g.cells, g'.cells, m);
      PathOver(g.cells, m);
      SameState(g.cells, g'.cells, m);
    } else {
      y := |g.cells|;
      PushesNew(t, g, k, r);
      PathOver(g'.cells, y);
    }
  }

  lemma BaseClimbs(t: Tables, g: Glr, k: nat, r: nat)
    requires t.Sized() && t.IsRule(r) && IsLive(g, k)
    ensures r < |t.r2| && Base(t, g, k, r) == Climb(g.cells, g.tops[k], t.r2[r])
  {
  }

  /** The state to merge with ends where the parser is. */
  lemma MergedPosition(t: Tables, c: Certificate, text: seq<nat>, g: Glr, k: nat, r: nat)
    requires Inv(t, c, text, g) && t.Sized() && t.IsRule(r) && IsLive(g, k)
    requires IsState(g.cells, Base(t, g, k, r)) && g.cells[Base(t, g, k, r)].lr < t.NStates()
    requires Merging(t, g, k, r) != NULL
    ensures var m := Merging(t, g, k, r); IsState(g.cells, m) && g.cells[m].posn == g.pos && g.cells[m].pred < m
  {
    hide Forest, Climb, SplitOk;
    CoreForest(t, c, text, g);
    var base := Base(t, g, k, r);
    MergeTargetBounds(g.cells, g.tops, k, 0, base, Lowered(g.split, base), g.pos,
      Target(t, g.cells[base].lr, t.r1[r]));
    assert StepsDown(g.cells, Merging(t, g, k, r));
  }

  /** What a reduction finds on the path. */
  lemma PathFacts(d: GlrTables, c: Certificate, text: seq<nat>, cells: Cells, x: Ref, r: nat)
    requires Forest(d.lr, c, text, cells) && IsState(cells, x) && cells[x].lr < d.lr.NStates() && RulesMatch(d.lr, c)
    requires ReductionSound(d.lr, c, cells[x].lr, r)
    ensures r < |d.lr.r2| && d.lr.r2[r] < |Path(cells, x)|
    ensures var b := Climb(cells, x, d.lr.r2[r]);
      && IsState(cells, b) && Path(cells, b) == Path(cells, x)[..|Path(cells, x)| - d.lr.r2[r]]
      && cells[b].lr == Path(cells, x)[|Path(cells, x)| - 1 - d.lr.r2[r]]
    ensures Path(cells, x)[|Path(cells, x)| - 1] == cells[x].lr
  {
    hide Forest, Checked, Edge, Path, IsPath, Symbols;
    ForestChecked(d.lr, c, text, cells);
    PathOk(d.lr, c, text, cells, x);
    LastOfPath(cells, x);
    ReduceOnPath(d.lr, c, Path(cells, x), r);
    ClimbPath(d.lr, c, text, cells, x, d.lr.r2[r]);
    LastOfPath(cells, Climb(cells, x, d.lr.r2[r]));
  }

  lemma LastOfPath(cells: Cells, x: Ref)
    requires IsState(cells, x)
    ensures Path(cells, x) != [] && Path(cells, x)[|Path(cells, x)| - 1] == cells[x].lr
  {
  }

  /** Unresolved states end before position `n`. */
  ghost predicate Timely(g: Glr, n: nat) {
    forall y | IsState(g.cells, y) && g.cells[y].sem.Chain? :: g.cells[y].posn < n
  }

  /** State `y` has been on top of a stack by now. */
  ghost predicate SeenBy(gs: seq<Glr>, i: nat, y: Ref) {
    exists h: nat, j: nat :: SeenAt(gs, h, j, y) && h <= i
  }

  predicate SeenAt(gs: seq<Glr>, h: nat, j: nat, y: Ref) {
    h < |gs| && j < |gs[h].tops| && gs[h].tops[j] == y
  }

  /** Every unresolved state that ends where the parser is has been on top of a stack by now. */
  ghost predicate AllSeen(gs: seq<Glr>, i: nat)
    requires i < |gs|
  {
    forall y | IsState(gs[i].cells, y) && gs[i].cells[y].sem.Chain? && gs[i].cells[y].posn == gs[i].pos ::
      SeenBy(gs, i, y)
  }

  /** What an operation leaves of the unresolved states: those that there were, and a new one on top of a stack. */
  ghost predicate Unresolved(g: Glr, g': Glr) {
    g'.pos == g.pos && forall y | IsState(g'.cells, y) && g'.cells[y].sem.Chain? :: WasThere(g, g', y)
  }

  ghost predicate WasThere(g: Glr, g': Glr, y: Ref)
    requires IsState(g'.cells, y)
  {
    || (IsState(g.cells, y) && g.cells[y].sem.Chain? && g.cells[y].posn == g'.cells[y].posn)
    || (g'.cells[y].posn == g.pos && exists k: nat :: k < |g'.tops| && g'.tops[k] == y)
  }

  lemma WorkUnresolved(d: GlrTables, c: Certificate, text: seq<nat>, g: Glr, g': Glr)
    requires ConflictsChecked(d, c) && Lexed(d, text) && !Cyclic(c.g) && Safe(d, c, text, g) && Works(d, text, g, g')
    ensures Unresolved(g, g') && Safe(d, c, text, g')
  {
    hide ConflictsChecked, Lexed, Cyclic, Safe, CanReduce, CanDie, DefersBy, Unresolved;
    NextKeeps(d, c, text, g, g');
    if Defers(d, text, g, g') {
      var k: nat, r: nat :| CanReduce(d, text, g, k, r) && DefersBy(d, g, g', k, r);
      DefersUnresolved(d, c, text, g, g', k, r);
    } else {
      SameCells(d, text, g, g');
    }
  }

  lemma SameCells(d: GlrTables, text: seq<nat>, g: Glr, g': Glr)
    requires Forks(g, g') || Dies(d, text, g, g')
    ensures Unresolved(g, g')
  {
    hide CanDie;
  }

  lemma DefersUnresolved(d: GlrTables, c: Certificate, text: seq<nat>, g: Glr, g': Glr, k: nat, r: nat)
    requires ConflictsChecked(d, c) && Lexed(d, text) && !Cyclic(c.g) && Safe(d, c, text, g) && g.split != NULL
    requires CanReduce(d, text, g, k, r) && DefersBy(d, g, g', k, r)
    ensures Unresolved(g, g')
  {
    hide ConflictsChecked, Lexed, Cyclic, Marked, Forest, Checked, Called, MergeTarget, SplitOk, ReductionSound, Climb;
    DeferStep(d, c, text, g, k, r);
    var mark :| Inv(d.lr, c, text, g) && Marked(d.lr, c, text, g, mark);
    MergeTargetUnresolved(d.lr, c, text, g, mark, k, r);
    var m := Merging(d.lr, g, k, r);
    if m != NULL {
      OptionKinds(g.cells, m, g.tops[k], r);
    } else {
      assert g'.tops[k] == |g.cells|;
    }
  }

  /** What holds along the operations of a round. */
  lemma {:induction false} TrailKnown(d: GlrTables, c: Certificate, text: seq<nat>, gs: seq<Glr>, i: nat)
    requires ConflictsChecked(d, c) && Lexed(d, text) && !Cyclic(c.g) && Trail(d, text, gs) && i < |gs|
    requires Safe(d, c, text, gs[0]) && Timely(gs[0], gs[0].pos)
    ensures Safe(d, c, text, gs[i]) && gs[i].pos == gs[0].pos && Timely(gs[i], gs[0].pos + 1) && AllSeen(gs, i)
    decreases i
  {
    hide ConflictsChecked, Lexed, Cyclic, Safe, Works, WasThere;
    if i > 0 {
      TrailKnown(d, c, text, gs, i - 1);
      assert Works(d, text, gs[i - 1], gs[i - 1 + 1]);
      WorkUnresolved(d, c, text, gs[i - 1], gs[i]);
      forall y | IsState(gs[i].cells, y) && gs[i].cells[y].sem.Chain?
        ensures gs[i].cells[y].posn < gs[0].pos + 1
        ensures gs[i].cells[y].posn == gs[i].pos ==> SeenBy(gs, i, y)
      {
        assert WasThere(gs[i - 1], gs[i], y);
        SeenOn(gs, i, y);
      }
    }
  }

  lemma SeenOn(gs: seq<Glr>, i: nat, y: Ref)
    requires 0 < i < |gs| && IsState(gs[i].cells, y) && WasThere(gs[i - 1], gs[i], y) && gs[i].pos == gs[i - 1].pos
    requires AllSeen(gs, i - 1) && Timely(gs[i - 1], gs[i].pos + 1)
    ensures gs[i].cells[y].posn < gs[i].pos + 1
    ensures gs[i].cells[y].posn == gs[i].pos ==> SeenBy(gs, i, y)
  {
    if gs[i].cells[y].posn == gs[i].pos {
      if k: nat :| k < |gs[i].tops| && gs[i].tops[k] == y {
        assert SeenAt(gs, i, k, y);
      } else {
        assert SeenBy(gs, i - 1, y);
        var h: nat, j: nat :| SeenAt(gs, h, j, y) && h <= i - 1;
        assert SeenAt(gs, h, j, y) && h <= i;
      }
    }
  }

  /** The states that come to be on top of a stack are closed under the reductions of the automaton. */
  lemma VisitedClosed(d: GlrTables, c: Certificate, text: seq<nat>, gs: seq<Glr>, g: Glr, g': Glr, i: nat, j: nat,
                      x: Ref, ss: seq<nat>)
    returns (i': nat, j': nat, y: Ref)
    requires ConflictsChecked(d, c) && Lexed(d, text) && !Cyclic(c.g) && Segment(d, text, gs, g, g', 0, 0, NULL)
    requires Safe(d, c, text, g) && Timely(g, g.pos) && Visited(gs, i, j, 0, 0, x)
    requires ReducesTo(d, TokenAt(text, g.pos), Path(g'.cells, x), ss)
    ensures Visited(gs, i', j', 0, 0, y) && Path(g'.cells, y) == ss
  {
    hide ConflictsChecked, Lexed, Cyclic, Safe, Works, Timely, AllSeen, Path, GlrWork.Extends, Called, d.lr.Sized,
      ReduceDeferred, DefersBy;
    SegmentEnds(d, text, gs, g, g', 0, 0, NULL);
    assert TakenUp(d, text, gs, 0, 0, x);
    var t, token := d.lr, TokenAt(text, g.pos);
    var r: nat :| Reducible(d, Path(g'.cells, x), token, r) && ss == Reduct(t, Path(g'.cells, x), r);
    LastOfPath(g'.cells, x);
    assert ReducedIn(d, gs, x, r);
    var a: nat, k: nat :| ReducedAt(d, gs, a, k, x, r);
    TrailKnown(d, c, text, gs, a);
    assert Steady(gs[a], g, g', 0, 0) && Steady(gs[a + 1], g, g', 0, 0);
    DefersLive(d, gs[a], gs[a + 1], k, r);
    SameState(gs[a].cells, g'.cells, x);
    PathExtends(gs[a].cells, g'.cells, x);
    assert CanReduce(d, text, gs[a], k, r);
    y := DefersPath(d, c, text, gs[a], k, r);
    DefersSame(d, gs[a], gs[a + 1], k, r);
    PathExtends(gs[a + 1].cells, g'.cells, y);
    if gs[a + 1].tops[k] == y {
      i', j' := a + 1, k;
    } else {
      assert SeenBy(gs, a, y) by { SeenNow(gs, a, y); }
      i', j' :| SeenAt(gs, i', j', y) && i' <= a;
    }
    StateNotNull(gs[a + 1].cells, y);
  }

  lemma StateNotNull(cells: Cells, y: Ref)
    requires IsState(cells, y)
    ensures y != NULL
  {
  }

  lemma SeenNow(gs: seq<Glr>, a: nat, y: Ref)
    requires a < |gs| && AllSeen(gs, a)
    requires IsState(gs[a].cells, y) && gs[a].cells[y].sem.Chain? && gs[a].cells[y].posn == gs[a].pos
    ensures SeenBy(gs, a, y)
  {
  }

  lemma SameState(a: Cells, b: Cells, x: Ref)
    requires GlrWork.Extends(a, b) && IsState(a, x)
    ensures IsState(b, x) && b[x].lr == a[x].lr
  {
    assert Continues(a, b, x);
  }

  lemma DefersLive(d: GlrTables, g: Glr, g': Glr, k: nat, r: nat)
    requires DefersBy(d, g, g', k, r)
    ensures IsLive(g, k)
  {
  }

  lemma DefersSame(d: GlrTables, g: Glr, g': Glr, k: nat, r: nat)
    requires DefersBy(d, g, g', k, r)
    ensures g' == Reduced(d.lr, g, k, r)
  {
    hide ReduceDeferred;
  }

  lemma {:induction false} VisitedBecomes(d: GlrTables, c: Certificate, text: seq<nat>, gs: seq<Glr>, g: Glr, g': Glr,
                                          i: nat, j: nat, x: Ref, path: seq<seq<nat>>)
    returns (i': nat, j': nat, y: Ref)
    requires ConflictsChecked(d, c) && Lexed(d, text) && !Cyclic(c.g) && Segment(d, text, gs, g, g', 0, 0, NULL)
    requires Safe(d, c, text, g) && Timely(g, g.pos) && Visited(gs, i, j, 0, 0, x)
    requires Reductions(d, TokenAt(text, g.pos), path) && path[0] == Path(g'.cells, x)
    ensures Visited(gs, i', j', 0, 0, y) && Path(g'.cells, y) == path[|path| - 1]
    decreases |path|
  {
    hide ConflictsChecked, Lexed, Cyclic, Safe, Timely, Path, Segment, Visited, ReducesTo;
    if |path| == 1 {
      i', j', y := i, j, x;
    } else {
      assert ReducesTo(d, TokenAt(text, g.pos), path[0], path[0 + 1]);
      i', j', y := VisitedClosed(d, c, text, gs, g, g', i, j, x, path[1]);
      var rest := path[1..];
      forall m: nat | m + 1 < |rest|
        ensures ReducesTo(d, TokenAt(text, g.pos), rest[m], rest[m + 1])
      {
        assert ReducesTo(d, TokenAt(text, g.pos), path[m + 1], path[m + 1 + 1]);
      }
      i', j', y := VisitedBecomes(d, c, text, gs, g, g', i', j', y, rest);
    }
  }

  /** Some stack of `g` leads to the path `ss` by reductions. */
  ghost predicate LeadsUp(d: GlrTables, text: seq<nat>, g: Glr, ss: seq<nat>) {
    exists k: nat :: IsLive(g, k) && Becomes(d, TokenAt(text, g.pos), StackOf(g, k), ss)
  }

  /** The path `ss` is that of a stack. */
  ghost predicate Present(g: Glr, ss: seq<nat>) {
    exists k: nat :: IsLive(g, k) && StackOf(g, k) == ss
  }

  /** Whatever shifts the token after reductions of one of the stacks is on a stack when all have been processed. */
  lemma ProcessedPresent(d: GlrTables, c: Certificate, sup: Supply, text: seq<nat>, p: Point, fuel: nat, ss: seq<nat>,
                         s': nat)
    requires ConflictsChecked(d, c) && Lexed(d, text) && !Cyclic(c.g) && Safe(d, c, text, p.g)
    requires (p.g.split != NULL || InConflict(d, text, p.g, 0)) && Timely(p.g, p.g.pos)
    requires ProcessFrom(d, sup, text, p, 0, fuel, fuel).Ends?
    requires LeadsUp(d, text, p.g, ss) && ShiftsTo(d, ss, TokenAt(text, p.g.pos), s')
    ensures Present(ProcessFrom(d, sup, text, p, 0, fuel, fuel).p.g, ss)
  {
    hide ConflictsChecked, Lexed, Cyclic, Safe, Timely, Path, InConflict, Works, ProcessFrom, GlrWork.Extends, Called,
      ReducedIn, d.lr.Sized;
    var g, g' := p.g, ProcessFrom(d, sup, text, p, 0, fuel, fuel).p.g;
    var gs := ProcessFromThorough(d, c, sup, text, p, 0, fuel, fuel);
    SegmentEnds(d, text, gs, g, g', 0, 0, NULL);
    var k: nat :| IsLive(g, k) && Becomes(d, TokenAt(text, g.pos), StackOf(g, k), ss);
    var path :| Reductions(d, TokenAt(text, g.pos), path) && path[0] == StackOf(g, k) && path[|path| - 1] == ss;
    PathExtends(g.cells, g'.cells, g.tops[k]);
    StateNotNull(g.cells, g.tops[k]);
    assert Visited(gs, 0, k, 0, 0, g.tops[k]);
    var i, j, y := VisitedBecomes(d, c, text, gs, g, g', 0, k, g.tops[k], path);
    assert TakenUp(d, text, gs, 0, 0, y);
    LastOfPath(g'.cells, y);
    var n: nat :| n < |g'.tops| && g'.tops[n] == y;
    assert IsLive(g', n) && StackOf(g', n) == ss;
  }
}
