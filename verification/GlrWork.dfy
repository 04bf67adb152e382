/** A measure that every reduction of a stack brings down, for grammars without cycles and without empty rules: the
    height of the stack, and how many unit steps are still possible above its top symbol. */
module GlrWork {
  import opened Grammar
  import opened LrTables
  import opened GlrForest
  import opened GlrMachine
  import opened GlrRank
  import opened GlrCyclic
  import opened GlrRun
  import opened GlrStack
  import opened GlrProcess
  import opened UnitSteps

  /** No rule has an empty right-hand side. */
  predicate NoEmptyRules(t: Tables) {
    forall r | 0 < r < |t.r2| :: t.r2[r] > 0
  }

  /** How many symbols derive `symbol` by unit steps, at most. */
  ghost function Above(t: Tables, c: Certificate, symbol: nat): nat {
    var n := Bound(t.stos);
    ReachSize(c.g, symbol, n);
    n - |Reach(c.g, symbol, n)|
  }

  ghost function Work(t: Tables, c: Certificate, height: nat, symbol: nat): nat {
    height * (Bound(t.stos) + 1) + Above(t, c, symbol)
  }

  /** The measure of stack `k`. */
  ghost function WorkAt(t: Tables, c: Certificate, g: Glr, k: nat): nat {
    if IsLive(g, k) then Work(t, c, |Path(g.cells, g.tops[k])|, Symbol(t, g.cells[g.tops[k]].lr)) else 0
  }

  lemma LiveWork(t: Tables, c: Certificate, g: Glr, k: nat)
    requires IsLive(g, k)
    ensures WorkAt(t, c, g, k) > 0
  {
    hide Above;
    var h := |Path(g.cells, g.tops[k])|;
    assert h * (Bound(t.stos) + 1) >= 1 * (Bound(t.stos) + 1);
  }

  /** A rule of length `n`, at least 1, replaces the top `n` symbols by one. */
  lemma WorkShrinks(t: Tables, c: Certificate, height: nat, n: nat, a: nat, x: nat)
    requires 0 < n <= height && !Cyclic(c.g) && x < Bound(t.stos) && (n == 1 ==> Steps(c.g, a, x))
    ensures Work(t, c, height - n + 1, a) < Work(t, c, height, x)
  {
    hide Reach, Bound, Cyclic, Steps;
    var b := Bound(t.stos);
    if n == 1 {
      ReachShrinks(c.g, a, x, b);
    } else {
      Multiples(height - n + 1, height, b + 1);
    }
  }

  /** The states of `a` are there in `b` as well, with the same predecessors. */
  ghost predicate Extends(a: Cells, b: Cells) {
    && |a| <= |b|
    && forall i | 0 <= i < |a| :: Continues(a, b, i)
  }

  ghost predicate Continues(a: Cells, b: Cells, i: Ref)
    requires 0 <= i < |a| <= |b|
  {
    IsState(a, i) == IsState(b, i) && (IsState(a, i) ==> a[i].lr == b[i].lr && a[i].pred == b[i].pred)
  }

  lemma {:induction false} PathExtends(a: Cells, b: Cells, i: Ref)
    requires Extends(a, b) && i < |a|
    ensures Path(b, i) == Path(a, i)
    decreases i
  {
    if 0 <= i < |a| {
      assert Continues(a, b, i);
      if IsState(a, i) && a[i].pred < i { PathExtends(a, b, a[i].pred); }
    }
  }

  lemma OptionExtends(cells: Cells, i: Ref, rhs: Ref, r: nat)
    requires IsState(cells, i)
    ensures Extends(cells, WithOption(cells, i, rhs, r))
  {
  }

  lemma StateExtends(cells: Cells, lr: nat, pred: Ref, posn: nat, sem: Sem)
    ensures Extends(cells, WithState(cells, lr, pred, posn, sem))
  {
  }

  lemma ExtendsOn(a: Cells, b: Cells, c: Cells)
    requires Extends(a, b) && Extends(b, c)
    ensures Extends(a, c)
  {
    forall i | 0 <= i < |a|
      ensures Continues(a, c, i)
    {
      assert Continues(a, b, i) && Continues(b, c, i);
    }
  }

  /** What a reduction of the state `i` by `r` amounts to. */
  lemma ReduceWorks(t: Tables, c: Certificate, text: seq<nat>, cells: Cells, i: Ref, r: nat)
    requires Forest(t, c, text, cells) && IsState(cells, i) && cells[i].lr < t.NStates() && RulesMatch(t, c)
    requires ReductionSound(t, c, cells[i].lr, r) && NoEmptyRules(t) && !Cyclic(c.g)
    ensures var b := Climb(cells, i, t.r2[r]);
      && IsState(cells, b) && cells[b].lr < t.NStates() && 0 <= b < i && t.r2[r] < |Path(cells, i)|
      && |Path(cells, b)| == |Path(cells, i)| - t.r2[r]
      && Symbol(t, Target(t, cells[b].lr, t.r1[r])) == t.r1[r]
      && Work(t, c, |Path(cells, b)| + 1, t.r1[r]) < Work(t, c, |Path(cells, i)|, Symbol(t, cells[i].lr))
  {
    hide Forest, Checked, Edge, Cyclic, Work, Bound, DerivesSpan, ReductionSound, RulesMatch, Path, IsPath, Symbols,
      Steps, NoEmptyRules;
    ForestChecked(t, c, text, cells);
    var v := ReduceInForest(t, c, text, cells, i, r);
    RuleFacts(t, c, cells[i].lr, r);
    var n, b, path := t.r2[r], Climb(cells, i, t.r2[r]), Path(cells, i);
    PathOk(t, c, text, cells, i);
    ReduceOnPath(t, c, path, r);
    ClimbPath(t, c, text, cells, i, n);
    Below(t, c, text, cells, b);
    EdgeSymbol(t, c, cells[b].lr, t.r1[r], t.Goto(cells[b].lr, t.r1[r]));
    SymbolBound(t, c, text, cells, i);
    if n == 1 { UnitRule(t, c, path, r); }
    WorkShrinks(t, c, |path|, n, t.r1[r], Symbol(t, cells[i].lr));
  }

  lemma RuleFacts(t: Tables, c: Certificate, s: nat, r: nat)
    requires RulesMatch(t, c) && s < t.NStates() && ReductionSound(t, c, s, r) && NoEmptyRules(t)
    ensures t.Sized() && t.IsRule(r) && 0 < r < |t.r2| == |c.g| && t.r2[r] > 0 && |c.g[r].rhs| == t.r2[r]
  {
  }

  /** A rule of length 1 whose right-hand side is on the stack is a unit step. */
  lemma UnitRule(t: Tables, c: Certificate, path: seq<nat>, r: nat)
    requires RulesMatch(t, c) && t.IsRule(r) && |path| > 1 && Symbols(t, path)[|path| - 2..] == c.g[r].rhs
    ensures Steps(c.g, t.r1[r], Symbol(t, path[|path| - 1]))
  {
    var x := Symbol(t, path[|path| - 1]);
    assert Symbols(t, path)[|path| - 2..] == [x];
    var kids := [Leaf(x)];
    assert kids[..0] == [];
    assert Yields(kids) == Yields(kids[..0]) + Yield(kids[0]) == [x];
    OneStep(t, c, r, kids, x);
  }

  /** Stack `j` has the same measure in both configurations, or is dead in both. */
  ghost predicate SameWork(t: Tables, c: Certificate, g: Glr, g': Glr, j: nat) {
    j < |g.tops| && j < |g'.tops| && IsLive(g, j) == IsLive(g', j) && WorkAt(t, c, g, j) == WorkAt(t, c, g', j)
  }

  lemma ExtendedWork(t: Tables, c: Certificate, g: Glr, g': Glr, j: nat)
    requires Extends(g.cells, g'.cells) && j < |g.tops| && j < |g'.tops| && g'.tops[j] == g.tops[j]
    requires g.tops[j] != NULL ==> IsState(g.cells, g.tops[j])
    ensures SameWork(t, c, g, g', j)
  {
    hide Work;
    var i := g.tops[j];
    if IsState(g.cells, i) {
      assert Continues(g.cells, g'.cells, i);
      PathExtends(g.cells, g'.cells, i);
    } else {
      assert !IsState(g'.cells, i);
    }
  }

  /** A deferred reduction brings the measure of its stack down, or ends the stack; it does not matter to others. */
  lemma ReduceLowers(d: GlrTables, c: Certificate, text: seq<nat>, g: Glr, k: nat, r: nat)
    requires Ready(d, c, text, g, k) && g.split != NULL && CanReduce(d, text, g, k, r) && NoEmptyRules(d.lr)
    ensures var g' := Reduced(d.lr, g, k, r);
      && |g'.tops| == |g.tops|
      && WorkAt(d.lr, c, g', k) < WorkAt(d.lr, c, g, k)
      && forall j: nat | j < |g.tops| && j != k :: SameWork(d.lr, c, g, g', j)
  {
    hide ConflictsChecked, Lexed, Cyclic, Safe, CanReduce, InConflict, Inv, Checked, ReductionSound, SameStack, Edge,
      MergeTarget, Work, Forest, RulesMatch, Marked, Core;
    ReduceStep(d, c, text, g, k, r);
    SafeFacts(d, c, text, g, k);
    SafeTops(d, c, text, g);
    InvForest(d.lr, c, text, g);
    var t, cells, i := d.lr, g.cells, g.tops[k];
    ReduceWorks(t, c, text, cells, i, r);
    var base, g' := Base(t, g, k, r), Reduced(t, g, k, r);
    var lr, posn := Target(t, cells[base].lr, t.r1[r]), cells[i].posn;
    var m := MergeTarget(cells, g.tops, k, 0, base, Lowered(g.split, base), posn, lr);
    WorkPositive(t, c, |Path(cells, i)|, Symbol(t, cells[i].lr), |Path(cells, base)| + 1, t.r1[r]);
    if m != NULL {
      OptionExtends(cells, m, i, r);
    } else {
      var pushed := WithState(cells, lr, base, posn, Chain(NULL));
      StateExtends(cells, lr, base, posn, Chain(NULL));
      OptionExtends(pushed, |cells|, i, r);
      ExtendsOn(cells, pushed, g'.cells);
      PathExtends(cells, g'.cells, base);
    }
    forall j: nat | j < |g.tops| && j != k
      ensures SameWork(t, c, g, g', j)
    {
      ExtendedWork(t, c, g, g', j);
    }
  }

  lemma WorkPositive(t: Tables, c: Certificate, h: nat, x: nat, h': nat, a: nat)
    requires Work(t, c, h', a) < Work(t, c, h, x)
    ensures Work(t, c, h, x) > 0
  {
    hide Work;
  }

  lemma InvForest(t: Tables, c: Certificate, text: seq<nat>, g: Glr)
    requires Inv(t, c, text, g)
    ensures Forest(t, c, text, g.cells)
  {
    hide Forest;
  }
}
