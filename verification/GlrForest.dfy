/** The arena of the glr.c skeleton as a sequence of cells linked by index: a graph-structured
    stack of LR states, and the packed forest of the reductions that have been put off. */
module GlrForest {
  import opened Grammar
  import opened LrTables

  /** An index into the arena, or -1 for NULL. */
  type Ref = int
  const NULL: Ref := -1

  /** `yysemantics` with its tag `yyresolved`.  A state whose tag says that it holds a value while
      its storage has been overwritten by an option pointer is `Clobbered`. */
  datatype Sem = Val(tree: Tree) | Chain(first: Ref) | Clobbered(first: Ref)

  /** `yyGLRStackItem`: a state, or an option for the value of a state. */
  datatype Cell =
    | StateCell(lr: nat, pred: Ref, posn: nat, sem: Sem)
    | OptionCell(rule: nat, rhs: Ref, next: Ref)

  type Cells = seq<Cell>

  predicate IsState(cells: Cells, i: Ref) {
    0 <= i < |cells| && cells[i].StateCell?
  }

  predicate IsOption(cells: Cells, i: Ref) {
    0 <= i < |cells| && cells[i].OptionCell?
  }

  /** The state `n` predecessors below `i`; NULL if there is none. */
  function Climb(cells: Cells, i: Ref, n: nat): Ref
    decreases n
  {
    if n == 0 || !IsState(cells, i) then i else Climb(cells, cells[i].pred, n - 1)
  }

  /** The tokens between two positions. */
  function Span(text: seq<nat>, i: nat, j: nat): seq<nat>
    requires i <= j
  {
    Delivered(text, j)[i..]
  }

  lemma SpanJoins(text: seq<nat>, i: nat, j: nat, k: nat)
    requires i <= j <= k
    ensures Span(text, i, j) + Span(text, j, k) == Span(text, i, k)
  {
  }

  ghost predicate DerivesSpan(c: Certificate, v: Tree, symbol: nat, text: seq<nat>, i: nat, j: nat) {
    i <= j && Derivation(c.g, v) && Root(c.g, v) == symbol && Yield(v) == Span(text, i, j)
  }

  /** Some derivation leads from the symbol to the tokens between the positions. */
  ghost predicate Spans(c: Certificate, symbol: nat, text: seq<nat>, i: nat, j: nat) {
    exists v :: DerivesSpan(c, v, symbol, text, i, j)
  }

  /** Option `k` for the value of state `i`: the top of its right-hand side ends where `i` ends, the
      rule is complete there, and exactly its length further down is the predecessor of `i`, from
      which the left-hand side leads to `i`. */
  ghost predicate OptionOk(t: Tables, c: Certificate, cells: Cells, i: Ref, k: Ref)
    requires RulesMatch(t, c)
  {
    && IsState(cells, i) && IsOption(cells, k)
    && var o := cells[k];
    && IsState(cells, o.rhs) && cells[o.rhs].posn == cells[i].posn
    && t.IsRule(o.rule) && o.rule != ACCEPT
    && HasItem(c, cells[o.rhs].lr, Item(o.rule, |c.g[o.rule].rhs|))
    && Climb(cells, o.rhs, t.r2[o.rule]) == cells[i].pred
    && IsState(cells, cells[i].pred)
    && t.Goto(cells[cells[i].pred].lr, t.r1[o.rule]) == cells[i].lr
  }

  /** The options chained from `k` on, at decreasing addresses, are options of state `i`. */
  ghost predicate ChainOk(t: Tables, c: Certificate, cells: Cells, i: Ref, k: Ref)
    requires RulesMatch(t, c)
    decreases k
  {
    k == NULL || (OptionOk(t, c, cells, i, k) && cells[k].next < k && ChainOk(t, c, cells, i, cells[k].next))
  }

  /** A state other than the bottom one: its predecessor is at a lower address and no later
      position, the step from there is an edge of the automaton, its symbol derives the tokens in
      between, and so does its value; a value put off has at least one option. */
  ghost predicate StateOk(t: Tables, c: Certificate, text: seq<nat>, cells: Cells, i: Ref)
    requires RulesMatch(t, c) && IsState(cells, i)
  {
    var s := cells[i];
    if i == 0 then s.pred == NULL && s.lr == 0 && s.posn == 0 && s.sem.Val?
    else
      && IsState(cells, s.pred) && s.pred < i
      && cells[s.pred].posn <= s.posn
      && Edge(t, c, cells[s.pred].lr, Symbol(t, s.lr), s.lr)
      && Spans(c, Symbol(t, s.lr), text, cells[s.pred].posn, s.posn)
      && match s.sem
         case Val(v) => DerivesSpan(c, v, Symbol(t, s.lr), text, cells[s.pred].posn, s.posn)
         case Chain(k) => k != NULL && ChainOk(t, c, cells, i, k)
         case Clobbered(_) => false
  }

  ghost predicate Forest(t: Tables, c: Certificate, text: seq<nat>, cells: Cells) {
    && Checked(t, c)
    && IsState(cells, 0)
    && forall i | IsState(cells, i) :: StateOk(t, c, text, cells, i)
  }

  /** The LR states from the bottom up to cell `i`. */
  function Path(cells: Cells, i: Ref): seq<nat>
    decreases i
  {
    if !IsState(cells, i) then []
    else (if cells[i].pred < i then Path(cells, cells[i].pred) else []) + [cells[i].lr]
  }

  /** The step down from a state above the bottom. */
  lemma Below(t: Tables, c: Certificate, text: seq<nat>, cells: Cells, i: Ref)
    requires Forest(t, c, text, cells) && IsState(cells, i)
    ensures RulesMatch(t, c) && 0 <= i
    ensures i > 0 ==> var p := cells[i].pred;
      && IsState(cells, p) && p < i && cells[p].posn <= cells[i].posn
      && Edge(t, c, cells[p].lr, Symbol(t, cells[i].lr), cells[i].lr)
      && Path(cells, i) == Path(cells, p) + [cells[i].lr] && |Path(cells, p)| > 0
    ensures i == 0 ==> cells[i].lr == 0 && cells[i].pred == NULL && Path(cells, i) == [0]
  {
    hide Checked, Spans, DerivesSpan, ChainOk, Edge;
    CheckedMatches(t, c);
    assert StateOk(t, c, text, cells, i);
  }

  lemma {:induction false} PathOk(t: Tables, c: Certificate, text: seq<nat>, cells: Cells, i: Ref)
    requires Forest(t, c, text, cells) && IsState(cells, i)
    ensures IsPath(t, c, Path(cells, i))
    ensures Path(cells, i)[|Path(cells, i)| - 1] == cells[i].lr
    decreases i
  {
    hide Forest, IsPath, Path, Edge;
    Below(t, c, text, cells, i);
    if i == 0 {
      BottomPath(t, c);
    } else {
      PathOk(t, c, text, cells, cells[i].pred);
      PathExtend(t, c, Path(cells, cells[i].pred), Symbol(t, cells[i].lr), cells[i].lr);
    }
  }

  lemma BottomPath(t: Tables, c: Certificate)
    requires RulesMatch(t, c)
    ensures IsPath(t, c, [0])
  {
  }

  /** Climbing `n` states takes `n` states off the path. */
  lemma {:induction false} ClimbPath(t: Tables, c: Certificate, text: seq<nat>, cells: Cells, i: Ref, n: nat)
    requires Forest(t, c, text, cells) && IsState(cells, i) && n < |Path(cells, i)|
    ensures IsState(cells, Climb(cells, i, n)) && Climb(cells, i, n) <= i
    ensures Path(cells, Climb(cells, i, n)) == Path(cells, i)[..|Path(cells, i)| - n]
    ensures cells[Climb(cells, i, n)].posn <= cells[i].posn
    decreases n
  {
    hide Forest, Path, Edge;
    Below(t, c, text, cells, i);
    if n > 0 { ClimbPath(t, c, text, cells, cells[i].pred, n - 1); }
  }

  lemma EmptySpan(text: seq<nat>, i: nat)
    ensures Span(text, i, i) == []
  {
  }

  lemma SpanTree(c: Certificate, v: Tree, symbol: nat, text: seq<nat>, i: nat, j: nat)
    requires DerivesSpan(c, v, symbol, text, i, j)
    ensures i <= j && Derivation(c.g, v) && Root(c.g, v) == symbol && Yield(v) == Span(text, i, j)
  {
  }

  lemma AppendTree(c: Certificate, kids: seq<Tree>, symbols: seq<nat>, v: Tree, x: nat)
    requires Derivations(c.g, kids) && Roots(c.g, kids, symbols)
    requires Derivation(c.g, v) && Root(c.g, v) == x
    ensures Derivations(c.g, kids + [v]) && Roots(c.g, kids + [v], symbols + [x])
    ensures Yields(kids + [v]) == Yields(kids) + Yield(v)
  {
    assert (kids + [v])[..|kids|] == kids;
  }

  lemma AppendLeaf(c: Certificate, kids: seq<Tree>, symbols: seq<nat>, x: nat)
    requires Derivations(c.g, kids) && Roots(c.g, kids, symbols)
    ensures Derivations(c.g, kids + [Leaf(x)]) && Roots(c.g, kids + [Leaf(x)], symbols + [x])
    ensures Yields(kids + [Leaf(x)]) == Yields(kids) + [x]
  {
    AppendTree(c, kids, symbols, Leaf(x), x);
  }

  /** Derivations of adjacent spans side by side. */
  lemma AppendSpan(c: Certificate, text: seq<nat>, kids: seq<Tree>, symbols: seq<nat>, i: nat, j: nat, v: Tree,
                   symbol: nat, k: nat)
    requires i <= j && Derivations(c.g, kids) && Roots(c.g, kids, symbols) && Yields(kids) == Span(text, i, j)
    requires DerivesSpan(c, v, symbol, text, j, k)
    ensures i <= k && Derivations(c.g, kids + [v]) && Roots(c.g, kids + [v], symbols + [symbol])
    ensures Yields(kids + [v]) == Span(text, i, k)
  {
    assert (kids + [v])[..|kids|] == kids;
    SpanJoins(text, i, j, k);
  }

  /** If state `i` is resolved, its value is `v`. */
  predicate ValueIs(cells: Cells, i: Ref, v: Tree) {
    IsState(cells, i) && (cells[i].sem.Val? ==> cells[i].sem.tree == v)
  }

  /** The last of `vs` is the value of state `i` if it has one, and so on down the chain. */
  predicate ValuesAre(cells: Cells, i: Ref, vs: seq<Tree>)
    decreases |vs|
  {
    vs == [] || (ValueIs(cells, i, vs[|vs| - 1]) && ValuesAre(cells, cells[i].pred, vs[..|vs| - 1]))
  }

  /** What the forest says of the step down from a state. */
  lemma StepDown(t: Tables, c: Certificate, text: seq<nat>, cells: Cells, i: Ref) returns (v: Tree)
    requires Forest(t, c, text, cells) && IsState(cells, i) && i > 0
    ensures var p := cells[i].pred;
      && IsState(cells, p) && p < i && cells[p].posn <= cells[i].posn
      && Path(cells, i) == Path(cells, p) + [cells[i].lr] && |Path(cells, p)| > 0
      && DerivesSpan(c, v, Symbol(t, cells[i].lr), text, cells[p].posn, cells[i].posn)
      && ValueIs(cells, i, v)
  {
    hide Checked, ChainOk, Edge, DerivesSpan;
    CheckedMatches(t, c);
    assert StateOk(t, c, text, cells, i);
    if cells[i].sem.Val? { return cells[i].sem.tree; }
    v :| DerivesSpan(c, v, Symbol(t, cells[i].lr), text, cells[cells[i].pred].posn, cells[i].posn);
  }

  lemma SymbolsTail(t: Tables, path: seq<nat>, s: nat, n: nat)
    requires 0 < n <= |path|
    ensures Symbols(t, path + [s])[|path| - n..] == Symbols(t, path)[|path| - n..] + [Symbol(t, s)]
  {
  }

  lemma NoKids(t: Tables, c: Certificate, text: seq<nat>, path: seq<nat>, i: nat)
    requires |path| > 0
    ensures Derivations(c.g, []) && Roots(c.g, [], Symbols(t, path)[|path| - 1..]) && Yields([]) == Span(text, i, i)
  {
  }

  /** The states climbed over carry derivations of the tokens climbed over. */
  lemma {:induction false} ClimbDerives(t: Tables, c: Certificate, text: seq<nat>, cells: Cells, i: Ref, n: nat)
    returns (kids: seq<Tree>)
    requires Forest(t, c, text, cells) && IsState(cells, i) && n < |Path(cells, i)|
    ensures IsState(cells, Climb(cells, i, n)) && cells[Climb(cells, i, n)].posn <= cells[i].posn
    ensures Derivations(c.g, kids)
    ensures Roots(c.g, kids, Symbols(t, Path(cells, i))[|Path(cells, i)| - 1 - n..])
    ensures Yields(kids) == Span(text, cells[Climb(cells, i, n)].posn, cells[i].posn)
    ensures ValuesAre(cells, i, kids)
    decreases n
  {
    hide Forest, DerivesSpan, Symbols, Path, Derivations, Roots, Yields, Edge;
    ClimbPath(t, c, text, cells, i, n);
    if n == 0 {
      kids := [];
      NoKids(t, c, text, Path(cells, i), cells[i].posn);
    } else {
      Below(t, c, text, cells, i);
      var v := StepDown(t, c, text, cells, i);
      var p := cells[i].pred;
      var below := ClimbDerives(t, c, text, cells, p, n - 1);
      SymbolsTail(t, Path(cells, p), cells[i].lr, n);
      AppendSpan(c, text, below, Symbols(t, Path(cells, p))[|Path(cells, p)| - n..],
                 cells[Climb(cells, i, n)].posn, cells[p].posn,
                 v, Symbol(t, cells[i].lr), cells[i].posn);
      kids := below + [v];
      assert kids[..|kids| - 1] == below;
    }
  }

  /** A reduction that the tables call for in state `i`: the state it leads back to, the goto from
      there, and a derivation of the left-hand side. */
  lemma ReduceInForest(t: Tables, c: Certificate, text: seq<nat>, cells: Cells, i: Ref, r: nat) returns (v: Tree)
    requires Forest(t, c, text, cells) && IsState(cells, i)
    requires cells[i].lr < t.NStates() && RulesMatch(t, c) && ReductionSound(t, c, cells[i].lr, r)
    ensures var b := Climb(cells, i, t.r2[r]);
      && IsState(cells, b) && b <= i && (t.r2[r] > 0 ==> b < i)
      && cells[b].lr < t.NStates()
      && Edge(t, c, cells[b].lr, t.r1[r], t.Goto(cells[b].lr, t.r1[r]))
      && DerivesSpan(c, v, t.r1[r], text, cells[b].posn, cells[i].posn)
      && v.Node? && v.rule == r && |v.kids| == t.r2[r] && ValuesAre(cells, i, v.kids)
  {
    hide Checked, Forest;
    var n := t.r2[r];
    var path := Path(cells, i);
    ForestChecked(t, c, text, cells);
    PathOk(t, c, text, cells, i);
    ReduceOnPath(t, c, path, r);
    ClimbPath(t, c, text, cells, i, n);
    var kids := ClimbDerives(t, c, text, cells, i, n);
    var b := Climb(cells, i, n);
    PathOk(t, c, text, cells, b);
    assert path[|path| - 1 - n] == cells[b].lr;
    v := Node(r, kids);
    if n > 0 { ClimbLower(t, c, text, cells, i, n); }
  }

  lemma ValueDerives(t: Tables, c: Certificate, text: seq<nat>, cells: Cells, i: Ref)
    requires Forest(t, c, text, cells) && IsState(cells, i) && i > 0 && cells[i].sem.Val?
    ensures IsState(cells, cells[i].pred)
    ensures DerivesSpan(c, cells[i].sem.tree, Symbol(t, cells[i].lr), text, cells[cells[i].pred].posn, cells[i].posn)
  {
    hide Checked, Edge, Spans, DerivesSpan, ChainOk;
    ForestChecked(t, c, text, cells);
    assert StateOk(t, c, text, cells, i);
  }

  lemma ForestChecked(t: Tables, c: Certificate, text: seq<nat>, cells: Cells)
    requires Forest(t, c, text, cells)
    ensures Checked(t, c) && RulesMatch(t, c) && IsState(cells, 0)
  {
  }

  lemma {:induction false} ClimbLower(t: Tables, c: Certificate, text: seq<nat>, cells: Cells, i: Ref, n: nat)
    requires Forest(t, c, text, cells) && IsState(cells, i) && 0 < n < |Path(cells, i)|
    ensures Climb(cells, i, n) < i
  {
    hide Forest, Path, Edge;
    Below(t, c, text, cells, i);
    ClimbPath(t, c, text, cells, cells[i].pred, n - 1);
  }

  /** Nothing in `a` but values has changed in `b`, which may be longer. */
  ghost predicate Extends(a: Cells, b: Cells) {
    && |a| <= |b|
    && (forall i | 0 <= i < |a| :: a[i].StateCell? == b[i].StateCell?)
    && (forall i | 0 <= i < |a| && a[i].OptionCell? :: a[i] == b[i])
    && (forall i | 0 <= i < |a| && a[i].StateCell? :: b[i] == a[i].(sem := b[i].sem))
  }

  /** Predecessors are states. */
  ghost predicate Linked(a: Cells) {
    forall i | IsState(a, i) :: a[i].pred == NULL || IsState(a, a[i].pred)
  }

  lemma ForestLinked(t: Tables, c: Certificate, text: seq<nat>, cells: Cells)
    requires Forest(t, c, text, cells)
    ensures Linked(cells)
  {
    forall i | IsState(cells, i)
      ensures cells[i].pred == NULL || IsState(cells, cells[i].pred)
    {
      assert StateOk(t, c, text, cells, i);
    }
  }

  lemma {:induction false} ClimbStable(a: Cells, b: Cells, i: Ref, n: nat)
    requires Linked(a) && Extends(a, b) && (i == NULL || IsState(a, i))
    ensures Climb(a, i, n) == Climb(b, i, n)
    decreases n
  {
    if n > 0 && i != NULL { ClimbStable(a, b, a[i].pred, n - 1); }
  }

  lemma {:induction false} ChainStable(t: Tables, c: Certificate, a: Cells, b: Cells, i: Ref, k: Ref)
    requires RulesMatch(t, c) && Linked(a) && Extends(a, b) && ChainOk(t, c, a, i, k)
    ensures ChainOk(t, c, b, i, k)
    decreases k
  {
    if k != NULL {
      ClimbStable(a, b, a[k].rhs, t.r2[a[k].rule]);
      ChainStable(t, c, a, b, i, a[k].next);
    }
  }

  /** A state that keeps its value, or its options, stays well formed. */
  lemma StateStable(t: Tables, c: Certificate, text: seq<nat>, a: Cells, b: Cells, i: Ref)
    requires RulesMatch(t, c) && Linked(a) && Extends(a, b)
    requires IsState(a, i) && StateOk(t, c, text, a, i) && b[i].sem == a[i].sem
    ensures IsState(b, i) && StateOk(t, c, text, b, i)
  {
    hide Edge, Spans, DerivesSpan;
    if a[i].sem.Chain? { ChainStable(t, c, a, b, i, a[i].sem.first); }
  }

  /** A forest stays one when cells are appended and one state changes, if the states concerned
      are well formed. */
  lemma ForestGrows(t: Tables, c: Certificate, text: seq<nat>, a: Cells, b: Cells, at: Ref)
    requires Forest(t, c, text, a) && Extends(a, b)
    requires forall i | IsState(a, i) && i != at :: b[i].sem == a[i].sem
    requires forall i | IsState(b, i) && (i == at || |a| <= i) :: RulesMatch(t, c) && StateOk(t, c, text, b, i)
    ensures Forest(t, c, text, b)
  {
    hide Checked, StateOk;
    ForestChecked(t, c, text, a);
    ForestLinked(t, c, text, a);
    forall i | IsState(b, i)
      ensures StateOk(t, c, text, b, i)
    {
      if i < |a| && i != at { StateStable(t, c, text, a, b, i); }
    }
  }

  /** `yyglrShift` and the first half of `yyglrShiftDefer`: append a state on top of `pred`. */
  function WithState(cells: Cells, lr: nat, pred: Ref, posn: nat, sem: Sem): Cells {
    cells + [StateCell(lr, pred, posn, sem)]
  }

  /** `yyaddDeferredAction`: append an option and put it at the head of the chain of state `i`.
      Nothing in the source checks that the state is unresolved. */
  function WithOption(cells: Cells, i: Ref, rhs: Ref, rule: nat): Cells
    requires IsState(cells, i)
  {
    var k := |cells|;
    var next := match cells[i].sem case Chain(f) => f case _ => NULL;
    var sem := if cells[i].sem.Chain? then Chain(k) else Clobbered(k);
    (cells + [OptionCell(rule, rhs, next)])[i := cells[i].(sem := sem)]
  }

  lemma PushForest(t: Tables, c: Certificate, text: seq<nat>, cells: Cells, lr: nat, pred: Ref, posn: nat, v: Tree)
    requires Forest(t, c, text, cells) && IsState(cells, pred)
    requires cells[pred].posn <= posn
    requires RulesMatch(t, c) && Edge(t, c, cells[pred].lr, Symbol(t, lr), lr)
    requires DerivesSpan(c, v, Symbol(t, lr), text, cells[pred].posn, posn)
    ensures Forest(t, c, text, WithState(cells, lr, pred, posn, Val(v)))
  {
    hide Checked, Edge, DerivesSpan;
    ForestChecked(t, c, text, cells);
    var b := WithState(cells, lr, pred, posn, Val(v));
    assert StateOk(t, c, text, b, |cells|);
    hide StateOk;
    ForestGrows(t, c, text, cells, b, NULL);
  }

  /** The requirements on an option about to be added to a state, or to a new state over `pred`. */
  ghost predicate Fits(t: Tables, c: Certificate, cells: Cells, lr: nat, pred: Ref, posn: nat, rhs: Ref, rule: nat)
    requires RulesMatch(t, c)
  {
    && IsState(cells, rhs) && cells[rhs].posn == posn
    && cells[rhs].lr < t.NStates() && ReductionSound(t, c, cells[rhs].lr, rule)
    && Climb(cells, rhs, t.r2[rule]) == pred
    && IsState(cells, pred)
    && t.Goto(cells[pred].lr, t.r1[rule]) == lr
  }

  /** Adding a fitting option to an unresolved state. */
  lemma {:induction false} OptionForest(t: Tables, c: Certificate, text: seq<nat>, cells: Cells, i: Ref, rhs: Ref,
                                        rule: nat)
    requires Forest(t, c, text, cells) && IsState(cells, i) && i > 0 && cells[i].sem.Chain?
    requires RulesMatch(t, c) && Fits(t, c, cells, cells[i].lr, cells[i].pred, cells[i].posn, rhs, rule)
    ensures Forest(t, c, text, WithOption(cells, i, rhs, rule))
  {
    hide Checked, Edge, Spans, DerivesSpan;
    var b := WithOption(cells, i, rhs, rule);
    ForestLinked(t, c, text, cells);
    assert StateOk(t, c, text, cells, i);
    assert Extends(cells, b);
    OptionState(t, c, text, cells, b, i, rhs, rule);
    hide StateOk;
    ForestGrows(t, c, text, cells, b, i);
  }

  lemma OptionState(t: Tables, c: Certificate, text: seq<nat>, cells: Cells, b: Cells, i: Ref, rhs: Ref, rule: nat)
    requires RulesMatch(t, c) && Linked(cells) && IsState(cells, i) && i > 0 && cells[i].sem.Chain?
    requires StateOk(t, c, text, cells, i) || ShapeOk(t, c, text, cells, i)
    requires Fits(t, c, cells, cells[i].lr, cells[i].pred, cells[i].posn, rhs, rule)
    requires b == WithOption(cells, i, rhs, rule) && Extends(cells, b)
    ensures StateOk(t, c, text, b, i)
  {
    hide Edge, Spans, DerivesSpan;
    var k := |cells|;
    ClimbStable(cells, b, rhs, t.r2[rule]);
    assert OptionOk(t, c, b, i, k);
    var f := cells[i].sem.first;
    if f != NULL { ChainStable(t, c, cells, b, i, f); }
    assert ChainOk(t, c, b, i, k);
  }

  /** A state that lacks only its first option. */
  ghost predicate ShapeOk(t: Tables, c: Certificate, text: seq<nat>, cells: Cells, i: Ref)
    requires RulesMatch(t, c) && IsState(cells, i)
  {
    var s := cells[i];
    && i > 0 && s.sem == Chain(NULL)
    && IsState(cells, s.pred) && s.pred < i
    && cells[s.pred].posn <= s.posn
    && Edge(t, c, cells[s.pred].lr, Symbol(t, s.lr), s.lr)
    && Spans(c, Symbol(t, s.lr), text, cells[s.pred].posn, s.posn)
  }

  lemma LinkedGrows(cells: Cells, lr: nat, pred: Ref, posn: nat, sem: Sem)
    requires Linked(cells) && IsState(cells, pred)
    ensures Linked(WithState(cells, lr, pred, posn, sem)) && Extends(cells, WithState(cells, lr, pred, posn, sem))
  {
  }

  lemma NewShape(t: Tables, c: Certificate, text: seq<nat>, cells: Cells, lr: nat, pred: Ref, posn: nat)
    requires RulesMatch(t, c) && IsState(cells, 0) && IsState(cells, pred) && cells[pred].posn <= posn
    requires Edge(t, c, cells[pred].lr, Symbol(t, lr), lr) && Spans(c, Symbol(t, lr), text, cells[pred].posn, posn)
    ensures ShapeOk(t, c, text, WithState(cells, lr, pred, posn, Chain(NULL)), |cells|)
  {
  }

  /** A new unresolved state together with its first option. */
  lemma {:induction false} DeferForest(t: Tables, c: Certificate, text: seq<nat>, cells: Cells, lr: nat, pred: Ref,
                                       posn: nat, rhs: Ref, rule: nat)
    requires Forest(t, c, text, cells) && RulesMatch(t, c) && Fits(t, c, cells, lr, pred, posn, rhs, rule)
    requires cells[pred].posn <= posn
    requires Edge(t, c, cells[pred].lr, Symbol(t, lr), lr) && Spans(c, Symbol(t, lr), text, cells[pred].posn, posn)
    ensures Forest(t, c, text, WithOption(WithState(cells, lr, pred, posn, Chain(NULL)), |cells|, rhs, rule))
  {
    hide Checked, Edge, Spans, DerivesSpan, Forest, StateOk, ShapeOk, Linked, OptionOk;
    var a := WithState(cells, lr, pred, posn, Chain(NULL));
    var b := WithOption(a, |cells|, rhs, rule);
    ForestChecked(t, c, text, cells);
    ForestLinked(t, c, text, cells);
    LinkedGrows(cells, lr, pred, posn, Chain(NULL));
    ClimbStable(cells, a, rhs, t.r2[rule]);
    NewShape(t, c, text, cells, lr, pred, posn);
    assert Extends(a, b);
    OptionState(t, c, text, a, b, |cells|, rhs, rule);
    assert Extends(cells, b);
    ForestGrows(t, c, text, cells, b, NULL);
  }
}
