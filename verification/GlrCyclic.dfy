/** When a deferred reduction finds a state to merge with, that state has no value yet, unless the
    grammar is cyclic: some nonterminal derives itself in one or more steps.  `yyglrReduce` relies on
    it, for `yyaddDeferredAction` would overwrite the value. */
module GlrCyclic {
  import opened Grammar
  import opened LrTables
  import opened GlrForest
  import opened GlrMachine
  import opened UnitSteps

  function SymbolOf(t: Tables, cell: Cell): nat {
    if cell.StateCell? then Symbol(t, cell.lr) else 0
  }

  /** The accessing symbols of the cells from `i` to `j`. */
  function Form(t: Tables, cells: Cells, i: nat, j: int): seq<nat>
    requires i <= j + 1 <= |cells|
    decreases j
  {
    if j < i then [] else Form(t, cells, i, j - 1) + [SymbolOf(t, cells[j])]
  }

  /** The symbol of state `q` derives the symbols above its predecessor up to cell `p`, followed by
      the tokens from there on. */
  ghost predicate Covers(t: Tables, c: Certificate, text: seq<nat>, cells: Cells, q: Ref, p: Ref)
    requires IsState(cells, q) && IsState(cells, p)
  {
    && -1 <= cells[q].pred < p && cells[p].posn <= cells[q].posn
    && exists v :: CoverTree(t, c, text, cells, q, p, v)
  }

  ghost predicate CoverTree(t: Tables, c: Certificate, text: seq<nat>, cells: Cells, q: Ref, p: Ref, v: Tree)
    requires IsState(cells, q) && IsState(cells, p) && -1 <= cells[q].pred < p && cells[p].posn <= cells[q].posn
  {
    && Derivation(c.g, v) && Root(c.g, v) == Symbol(t, cells[q].lr)
    && Yield(v) == Form(t, cells, cells[q].pred + 1, p) + Span(text, cells[p].posn, cells[q].posn)
  }

  /** A state made since the stack was split: if it has a value, it is a token; and if its
      predecessor is one of the older states, its symbol derives what it replaces. */
  ghost predicate NewOk(t: Tables, c: Certificate, text: seq<nat>, cells: Cells, mark: Ref, q: Ref)
    requires IsState(cells, q)
  {
    && (cells[q].sem.Val? ==> Symbol(t, cells[q].lr) < t.nTokens)
    && forall p | cells[q].pred < p <= mark && IsState(cells, p) :: Covers(t, c, text, cells, q, p)
  }

  ghost predicate NewAllOk(t: Tables, c: Certificate, text: seq<nat>, cells: Cells, mark: Ref) {
    forall q | IsState(cells, q) && mark < q :: NewOk(t, c, text, cells, mark, q)
  }

  /** `mark` is the top of the stack at the time of the split: the states up to there are those that
      deterministic operation left. */
  ghost predicate Marked(t: Tables, c: Certificate, text: seq<nat>, g: Glr, mark: Ref) {
    && IsState(g.cells, mark) && Contiguous(g.cells, mark) && g.cells[mark].posn <= g.pos
    && (forall k | 0 <= k < |g.tops| && g.tops[k] != NULL :: mark <= g.tops[k])
    && (if g.split == NULL then mark == |g.cells| - 1 else g.split <= mark && NewAllOk(t, c, text, g.cells, mark))
  }

  /** The old states climbed over, as leaves. */
  lemma {:induction false} LeafForm(t: Tables, c: Certificate, text: seq<nat>, cells: Cells, mark: Ref, i: Ref, n: nat)
    returns (kids: seq<Tree>)
    requires Forest(t, c, text, cells) && Contiguous(cells, mark) && n <= i <= mark < |cells|
    ensures IsState(cells, i) && n < |Path(cells, i)|
    ensures Climb(cells, i, n) == i - n
    ensures Derivations(c.g, kids) && Roots(c.g, kids, Symbols(t, Path(cells, i))[|Path(cells, i)| - 1 - n..])
    ensures Yields(kids) == Form(t, cells, i - n + 1, i)
    decreases n
  {
    hide Forest, Path, Edge, Symbols, Derivations, Roots, Yields, Form;
    Below(t, c, text, cells, i);
    if n == 0 {
      kids := [];
      NoForm(t, c, cells, Path(cells, i), i);
    } else {
      var below := LeafForm(t, c, text, cells, mark, i - 1, n - 1);
      kids := below + [Leaf(Symbol(t, cells[i].lr))];
      SymbolsTail(t, Path(cells, i - 1), cells[i].lr, n);
      AppendLeaf(c, below, Symbols(t, Path(cells, i - 1))[|Path(cells, i - 1)| - n..], Symbol(t, cells[i].lr));
      FormStep(t, cells, i - n + 1, i);
    }
  }

  lemma NoForm(t: Tables, c: Certificate, cells: Cells, path: seq<nat>, i: nat)
    requires |path| > 0 && i < |cells|
    ensures Derivations(c.g, []) && Roots(c.g, [], Symbols(t, path)[|path| - 1..])
    ensures Yields([]) == Form(t, cells, i + 1, i)
  {
  }

  lemma FormStep(t: Tables, cells: Cells, i: nat, j: nat)
    requires i <= j && IsState(cells, j)
    ensures Form(t, cells, i, j) == Form(t, cells, i, j - 1) + [Symbol(t, cells[j].lr)]
  {
  }

  lemma {:induction false} FormJoins(t: Tables, cells: Cells, i: nat, j: int, k: int)
    requires i <= j + 1 <= k + 1 <= |cells|
    ensures Form(t, cells, i, j) + Form(t, cells, j + 1, k) == Form(t, cells, i, k)
    decreases k
  {
    if j < k { FormJoins(t, cells, i, j, k - 1); }
  }

  /** What a climb over the old state `p` has gone over: derivations of the symbols of the old states
      up to `p`, followed by the tokens from `p` on. */
  lemma {:induction false} ClimbForm(t: Tables, c: Certificate, text: seq<nat>, cells: Cells, mark: Ref, i: Ref, n: nat,
                                     p: Ref)
    returns (kids: seq<Tree>)
    requires Forest(t, c, text, cells) && Contiguous(cells, mark) && mark < |cells| && NewAllOk(t, c, text, cells, mark)
    requires IsState(cells, i) && n < |Path(cells, i)|
    requires 0 <= Climb(cells, i, n) < p <= mark && p <= i
    ensures Derivations(c.g, kids) && Roots(c.g, kids, Symbols(t, Path(cells, i))[|Path(cells, i)| - 1 - n..])
    ensures IsState(cells, p) && cells[p].posn <= cells[i].posn
    ensures Yields(kids) == Form(t, cells, Climb(cells, i, n) + 1, p) + Span(text, cells[p].posn, cells[i].posn)
    decreases n
  {
    hide Forest, Path, Edge, Symbols, Derivations, Roots, Yields, Form, DerivesSpan, Span, NewAllOk, NewOk, CoverTree;
    Below(t, c, text, cells, i);
    assert IsState(cells, p);
    var b := Climb(cells, i, n);
    if i == p {
      OldClimb(t, c, text, cells, mark, i, n);
      kids := LeafForm(t, c, text, cells, mark, i, n);
      EmptySpan(text, cells[p].posn);
    } else {
      var q := cells[i].pred;
      ClimbPath(t, c, text, cells, q, n - 1);
      SymbolsTail(t, Path(cells, q), cells[i].lr, n);
      var symbols := Symbols(t, Path(cells, q))[|Path(cells, q)| - n..];
      if q >= p {
        var v := StepDown(t, c, text, cells, i);
        var below := ClimbForm(t, c, text, cells, mark, q, n - 1, p);
        kids := below + [v];
        SpanTree(c, v, Symbol(t, cells[i].lr), text, cells[q].posn, cells[i].posn);
        AppendTree(c, below, symbols, v, Symbol(t, cells[i].lr));
        SpanJoins(text, cells[p].posn, cells[q].posn, cells[i].posn);
        assert Yields(kids) == Form(t, cells, b + 1, p) +
          (Span(text, cells[p].posn, cells[q].posn) + Span(text, cells[q].posn, cells[i].posn));
      } else {
        var v := CoverOf(t, c, text, cells, mark, i, p);
        OldClimb(t, c, text, cells, mark, q, n - 1);
        var below := LeafForm(t, c, text, cells, mark, q, n - 1);
        kids := below + [v];
        AppendTree(c, below, symbols, v, Symbol(t, cells[i].lr));
        FormJoins(t, cells, b + 1, q, p);
      }
    }
  }

  lemma CoverOf(t: Tables, c: Certificate, text: seq<nat>, cells: Cells, mark: Ref, i: Ref, p: Ref) returns (v: Tree)
    requires Contiguous(cells, mark) && NewAllOk(t, c, text, cells, mark)
    requires IsState(cells, i) && cells[i].pred < p < i && p <= mark && -1 <= cells[i].pred
    ensures IsState(cells, p) && cells[p].posn <= cells[i].posn
    ensures CoverTree(t, c, text, cells, i, p, v)
    ensures Derivation(c.g, v) && Root(c.g, v) == Symbol(t, cells[i].lr)
    ensures Yield(v) == Form(t, cells, cells[i].pred + 1, p) + Span(text, cells[p].posn, cells[i].posn)
  {
    hide Form, Span;
    assert IsState(cells, p);
    assert NewOk(t, c, text, cells, mark, i);
    assert Covers(t, c, text, cells, i, p);
    v :| CoverTree(t, c, text, cells, i, p, v);
  }

  lemma ClimbNull(cells: Cells, n: nat)
    ensures Climb(cells, NULL, n) == NULL
  {
  }

  lemma {:induction false} OldClimb(t: Tables, c: Certificate, text: seq<nat>, cells: Cells, mark: Ref, i: Ref, n: nat)
    requires Forest(t, c, text, cells) && Contiguous(cells, mark) && 0 <= i <= mark < |cells|
    ensures 0 <= Climb(cells, i, n) ==> n <= i
    decreases n
  {
    hide Forest;
    assert IsState(cells, i);
    if n > 0 {
      if i > 0 { OldClimb(t, c, text, cells, mark, i - 1, n - 1); } else { ClimbNull(cells, n - 1); }
    }
  }

  /** The left-hand side of a reduction that goes back below the old state `p`. */
  lemma ReduceForm(t: Tables, c: Certificate, text: seq<nat>, cells: Cells, mark: Ref, i: Ref, r: nat, p: Ref)
    returns (v: Tree)
    requires Forest(t, c, text, cells) && Contiguous(cells, mark) && mark < |cells| && NewAllOk(t, c, text, cells, mark)
    requires IsState(cells, i) && RulesMatch(t, c) && cells[i].lr < t.NStates() && ReductionSound(t, c, cells[i].lr, r)
    requires 0 <= Climb(cells, i, t.r2[r]) < p <= mark && p <= i
    ensures IsState(cells, p) && cells[p].posn <= cells[i].posn
    ensures v.Node? && v.rule == r && Derivation(c.g, v) && c.g[r].lhs == t.r1[r]
    ensures Yield(v) == Form(t, cells, Climb(cells, i, t.r2[r]) + 1, p) + Span(text, cells[p].posn, cells[i].posn)
  {
    hide Forest, Checked, Path, Form, Span;
    ForestChecked(t, c, text, cells);
    PathOk(t, c, text, cells, i);
    ReduceOnPath(t, c, Path(cells, i), r);
    var kids := ClimbForm(t, c, text, cells, mark, i, t.r2[r], p);
    v := Node(r, kids);
  }

  /** A merge target with a value makes a self-derivation. */
  lemma MergeTargetUnresolved(t: Tables, c: Certificate, text: seq<nat>, g: Glr, mark: Ref, k: nat, r: nat)
    requires Inv(t, c, text, g) && g.split != NULL && Marked(t, c, text, g, mark) && IsLive(g, k)
    requires g.cells[g.tops[k]].lr < t.NStates() && RulesMatch(t, c) && ReductionSound(t, c, g.cells[g.tops[k]].lr, r)
    ensures IsState(g.cells, Base(t, g, k, r)) && g.cells[Base(t, g, k, r)].lr < t.NStates()
    ensures var m := Merging(t, g, k, r);
      m != NULL && !g.cells[m].sem.Chain? ==> Cyclic(c.g)
  {
    hide Forest, Checked, Edge, SplitOk, Marked, Form, DerivesSpan, NewAllOk, Merging, Climb, MergeTarget;
    ReduceDeferredKeeps(t, c, text, g, k, r);
    CoreForest(t, c, text, g);
    MergingFacts(t, c, text, g, k, r);
    var m := Merging(t, g, k, r);
    if m != NULL && !g.cells[m].sem.Chain? {
      var top := g.tops[k];
      MarkedFacts(t, c, text, g, mark, k);
      NoClobber(t, c, text, g.cells, m);
      OldTarget(t, c, text, g.cells, mark, m, r);
      var v := ReduceForm(t, c, text, g.cells, mark, top, r, m);
      OneForm(t, g.cells, m);
      EmptySpan(text, g.pos);
      assert SelfDerivation(c.g, v);
    }
  }

  /** The state to merge with: where it is, and what it is entered on. */
  lemma MergingFacts(t: Tables, c: Certificate, text: seq<nat>, g: Glr, k: nat, r: nat)
    requires Inv(t, c, text, g) && g.split != NULL && IsLive(g, k)
    requires g.cells[g.tops[k]].lr < t.NStates() && RulesMatch(t, c) && ReductionSound(t, c, g.cells[g.tops[k]].lr, r)
    requires IsState(g.cells, Base(t, g, k, r)) && g.cells[Base(t, g, k, r)].lr < t.NStates()
    ensures var m := Merging(t, g, k, r);
      m != NULL ==>
        && IsState(g.cells, m) && g.cells[m].pred == Base(t, g, k, r) && g.cells[m].posn == g.pos
        && Symbol(t, g.cells[m].lr) == t.r1[r]
  {
    hide Forest, Checked, Edge, SplitOk, DerivesSpan, Descending;
    CoreForest(t, c, text, g);
    var top := g.tops[k];
    var base := Base(t, g, k, r);
    var w := ReduceInForest(t, c, text, g.cells, top, r);
    EdgeSymbol(t, c, g.cells[base].lr, t.r1[r], t.Goto(g.cells[base].lr, t.r1[r]));
    if Merging(t, g, k, r) != NULL {
      MergeTargetBounds(g.cells, g.tops, k, 0, base, Lowered(g.split, base), g.pos, t.Goto(g.cells[base].lr, t.r1[r]));
    }
  }

  lemma MarkedFacts(t: Tables, c: Certificate, text: seq<nat>, g: Glr, mark: Ref, k: nat)
    requires Marked(t, c, text, g, mark) && g.split != NULL && IsLive(g, k)
    ensures IsState(g.cells, mark) && Contiguous(g.cells, mark) && g.cells[mark].posn <= g.pos
    ensures mark <= g.tops[k] && NewAllOk(t, c, text, g.cells, mark)
  {
  }

  /** A state with a value and a nonterminal is an old one. */
  lemma OldTarget(t: Tables, c: Certificate, text: seq<nat>, cells: Cells, mark: Ref, m: Ref, r: nat)
    requires Contiguous(cells, mark) && NewAllOk(t, c, text, cells, mark)
    requires t.Sized() && t.IsRule(r) && IsState(cells, m) && cells[m].sem.Val? && Symbol(t, cells[m].lr) == t.r1[r]
    ensures m <= mark && cells[m].pred == m - 1
  {
  }

  lemma OneForm(t: Tables, cells: Cells, m: Ref)
    requires IsState(cells, m)
    ensures Form(t, cells, m, m) == [Symbol(t, cells[m].lr)]
  {
  }

  lemma {:induction false} FormStable(t: Tables, a: Cells, b: Cells, i: nat, j: int)
    requires Extends(a, b) && i <= j + 1 <= |a|
    ensures Form(t, a, i, j) == Form(t, b, i, j)
    decreases j
  {
    if i <= j { FormStable(t, a, b, i, j - 1); }
  }

  lemma CoversStable(t: Tables, c: Certificate, text: seq<nat>, a: Cells, b: Cells, q: Ref, p: Ref)
    requires Extends(a, b) && IsState(a, q) && IsState(a, p) && Covers(t, c, text, a, q, p)
    ensures Covers(t, c, text, b, q, p)
  {
    hide Form, Span;
    var v :| CoverTree(t, c, text, a, q, p, v);
    FormStable(t, a, b, a[q].pred + 1, p);
    assert CoverTree(t, c, text, b, q, p, v);
  }

  lemma NewStable(t: Tables, c: Certificate, text: seq<nat>, a: Cells, b: Cells, mark: Ref, q: Ref)
    requires Extends(a, b) && mark < |a| && IsState(a, q) && NewOk(t, c, text, a, mark, q)
    requires b[q].sem.Val? ==> a[q].sem.Val?
    ensures NewOk(t, c, text, b, mark, q)
  {
    hide Covers;
    forall p | b[q].pred < p <= mark && IsState(b, p)
      ensures Covers(t, c, text, b, q, p)
    {
      assert IsState(a, p);
      CoversStable(t, c, text, a, b, q, p);
    }
  }

  /** Only new states need attention. */
  lemma NewAllStable(t: Tables, c: Certificate, text: seq<nat>, a: Cells, b: Cells, mark: Ref)
    requires Extends(a, b) && mark < |a| && NewAllOk(t, c, text, a, mark)
    requires forall q | IsState(a, q) && b[q].sem.Val? :: a[q].sem.Val?
    requires forall q | IsState(b, q) && |a| <= q :: NewOk(t, c, text, b, mark, q)
    ensures NewAllOk(t, c, text, b, mark)
  {
    hide NewOk;
    forall q | IsState(b, q) && mark < q
      ensures NewOk(t, c, text, b, mark, q)
    {
      if q < |a| {
        assert IsState(a, q);
        NewStable(t, c, text, a, b, mark, q);
      }
    }
  }

  lemma MarkedSplit(t: Tables, c: Certificate, text: seq<nat>, g: Glr, mark: Ref, k: nat)
    requires Inv(t, c, text, g) && Marked(t, c, text, g, mark) && IsLive(g, k)
    ensures Marked(t, c, text, SplitStack(g, k), mark)
  {
    hide Forest, NewOk;
  }

  lemma MarkedKill(t: Tables, c: Certificate, text: seq<nat>, g: Glr, mark: Ref, k: nat)
    requires g.split != NULL && Marked(t, c, text, g, mark) && k < |g.tops|
    ensures Marked(t, c, text, Kill(g, k), mark)
  {
    hide NewAllOk;
  }

  lemma MarkedSurvivors(t: Tables, c: Certificate, text: seq<nat>, g: Glr, mark: Ref)
    requires g.split != NULL && Marked(t, c, text, g, mark)
    ensures Marked(t, c, text, g.(tops := Survivors(g.tops)), mark)
  {
    hide NewAllOk;
    var g' := g.(tops := Survivors(g.tops));
    forall k | 0 <= k < |g'.tops|
      ensures mark <= g'.tops[k]
    {
      assert g'.tops[k] in g.tops;
    }
  }

  lemma MarkedShift(t: Tables, c: Certificate, text: seq<nat>, g: Glr, mark: Ref, k: nat, lr: nat)
    requires Core(t, c, text, g) && g.split != NULL && Marked(t, c, text, g, mark) && IsLive(g, k)
    requires TokenAt(text, g.pos) < t.nTokens && Symbol(t, lr) == TokenAt(text, g.pos)
    ensures Marked(t, c, text, ShiftToken(g, k, lr, g.pos + 1, TokenAt(text, g.pos)), mark)
  {
    hide Forest, NewAllOk, Covers;
    var b := ShiftToken(g, k, lr, g.pos + 1, TokenAt(text, g.pos)).cells;
    assert Extends(g.cells, b);
    assert NewOk(t, c, text, b, mark, |g.cells|);
    hide NewOk;
    NewAllStable(t, c, text, g.cells, b, mark);
  }

  /** The new state of a deferred reduction covers the old states that it replaces. */
  lemma DeferredNew(t: Tables, c: Certificate, text: seq<nat>, g: Glr, mark: Ref, i: Ref, r: nat, b: Cells)
    requires Forest(t, c, text, g.cells) && Contiguous(g.cells, mark) && mark < |g.cells|
    requires NewAllOk(t, c, text, g.cells, mark)
    requires IsState(g.cells, i) && RulesMatch(t, c) && g.cells[i].lr < t.NStates()
    requires ReductionSound(t, c, g.cells[i].lr, r)
    requires mark <= i && g.cells[i].posn == g.pos
    requires Extends(g.cells, b) && IsState(b, |g.cells|) && !b[|g.cells|].sem.Val?
    requires b[|g.cells|].pred == Climb(g.cells, i, t.r2[r]) && b[|g.cells|].pred >= 0
    requires b[|g.cells|].posn == g.pos && Symbol(t, b[|g.cells|].lr) == t.r1[r]
    ensures NewOk(t, c, text, b, mark, |g.cells|)
  {
    hide Forest, RulesMatch, ReductionSound, Form, Span, NewAllOk, Contiguous;
    var q := |g.cells|;
    forall p | b[q].pred < p <= mark && IsState(b, p)
      ensures Covers(t, c, text, b, q, p)
    {
      var v := ReduceForm(t, c, text, g.cells, mark, i, r, p);
      FormStable(t, g.cells, b, b[q].pred + 1, p);
      RuleRoot(t, c, v);
      assert CoverTree(t, c, text, b, q, p, v);
    }
  }

  lemma RuleRoot(t: Tables, c: Certificate, v: Tree)
    requires v.Node? && Derivation(c.g, v)
    ensures v.rule < |c.g| && Root(c.g, v) == c.g[v.rule].lhs
  {
  }

  /** Unless the grammar is cyclic, deferred reductions keep everything. */
  lemma MarkedReduce(t: Tables, c: Certificate, text: seq<nat>, g: Glr, mark: Ref, k: nat, r: nat)
    requires Inv(t, c, text, g) && g.split != NULL && Marked(t, c, text, g, mark) && IsLive(g, k) && !Cyclic(c.g)
    requires g.cells[g.tops[k]].lr < t.NStates() && RulesMatch(t, c) && ReductionSound(t, c, g.cells[g.tops[k]].lr, r)
    ensures IsState(g.cells, Base(t, g, k, r)) && g.cells[Base(t, g, k, r)].lr < t.NStates()
    ensures Inv(t, c, text, ReduceDeferred(t, g, k, r)) && Marked(t, c, text, ReduceDeferred(t, g, k, r), mark)
  {
    hide Forest, Checked, Edge, SplitOk, Cyclic, NewAllOk, NewOk, DerivesSpan, MergeTarget;
    ReduceDeferredKeeps(t, c, text, g, k, r);
    MergeTargetUnresolved(t, c, text, g, mark, k, r);
    var g' := ReduceDeferred(t, g, k, r);
    var m := Merging(t, g, k, r);
    var base := Base(t, g, k, r);
    assert Extends(g.cells, g'.cells);
    var w := ReduceInForest(t, c, text, g.cells, g.tops[k], r);
    EdgeSymbol(t, c, g.cells[base].lr, t.r1[r], t.Goto(g.cells[base].lr, t.r1[r]));
    if m == NULL {
      DeferredNew(t, c, text, g, mark, g.tops[k], r, g'.cells);
    }
    NewAllStable(t, c, text, g.cells, g'.cells, mark);
  }

  /** The invariant survives a deferred reduction exactly if it does not merge with a state that
      already has its value. */
  lemma ReduceDeferredExactly(t: Tables, c: Certificate, text: seq<nat>, g: Glr, k: nat, r: nat)
    requires Inv(t, c, text, g) && g.split != NULL && IsLive(g, k)
    requires g.cells[g.tops[k]].lr < t.NStates() && RulesMatch(t, c) && ReductionSound(t, c, g.cells[g.tops[k]].lr, r)
    ensures IsState(g.cells, Base(t, g, k, r)) && g.cells[Base(t, g, k, r)].lr < t.NStates()
    ensures var m := Merging(t, g, k, r);
      Inv(t, c, text, ReduceDeferred(t, g, k, r)) <==> m == NULL || g.cells[m].sem.Chain?
  {
    hide Forest, Checked, Edge, SplitOk, MergeTarget;
    ReduceDeferredKeeps(t, c, text, g, k, r);
    var g' := ReduceDeferred(t, g, k, r);
    var m := Merging(t, g, k, r);
    if Inv(t, c, text, g') && m != NULL {
      NoClobber(t, c, text, g'.cells, m);
    }
  }
}
