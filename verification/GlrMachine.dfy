/** The operations of the GLR parser on its set of stacks, as functions on values, and the
    invariant that all of them keep. */
module GlrMachine {
  import opened Grammar
  import opened LrTables
  import opened GlrForest

  /** `cells` is the used part of the arena, `tops[k]` the top of stack `k` or NULL if it is dead,
      `split` the split point or NULL in deterministic operation, `pos` is `yyposn`. */
  datatype Glr = Glr(cells: Cells, tops: seq<Ref>, split: Ref, pos: nat)

  /** Cells up to `n` are resolved states, each on top of the one before it. */
  ghost predicate Contiguous(cells: Cells, n: int) {
    forall i | 0 <= i <= n :: IsState(cells, i) && cells[i].pred == i - 1 && cells[i].sem.Val?
  }

  /** Deterministic operation: one contiguous stack.  Otherwise the arena is contiguous up to the
      split point, and no predecessor chain that starts above it jumps over it. */
  ghost predicate SplitOk(g: Glr) {
    if g.split == NULL then
      && |g.tops| == 1 && g.tops[0] == |g.cells| - 1
      && Contiguous(g.cells, |g.cells| - 1)
    else
      && IsState(g.cells, g.split)
      && Contiguous(g.cells, g.split)
      && (forall i | IsState(g.cells, i) && g.split < i :: g.split <= g.cells[i].pred)
      && (forall k | 0 <= k < |g.tops| && g.tops[k] != NULL :: g.split <= g.tops[k])
  }

  /** What holds at all times: the arena is a forest, the tops of live stacks are states, and the
      split point separates the linear part from the rest. */
  ghost predicate Core(t: Tables, c: Certificate, text: seq<nat>, g: Glr) {
    && Forest(t, c, text, g.cells)
    && (forall k | 0 <= k < |g.tops| && g.tops[k] != NULL :: IsState(g.cells, g.tops[k]))
    && SplitOk(g)
  }

  /** The live stacks before number `n` have shifted the current token, the others have not. */
  ghost predicate TopsAt(g: Glr, n: nat) {
    forall k | 0 <= k < |g.tops| && IsState(g.cells, g.tops[k]) ::
      g.cells[g.tops[k]].posn == g.pos + (if k < n then 1 else 0)
  }

  /** The invariant between the operations other than shifts. */
  ghost predicate Inv(t: Tables, c: Certificate, text: seq<nat>, g: Glr) {
    Core(t, c, text, g) && TopsAt(g, 0)
  }

  predicate IsLive(g: Glr, k: nat) {
    k < |g.tops| && IsState(g.cells, g.tops[k])
  }

  /** Predecessors are states at lower addresses and no later positions. */
  ghost predicate Descending(cells: Cells) {
    forall j | IsState(cells, j) :: StepsDown(cells, j)
  }

  ghost predicate StepsDown(cells: Cells, j: Ref)
    requires IsState(cells, j)
  {
    cells[j].pred < j && (j > 0 ==> IsState(cells, cells[j].pred) && cells[cells[j].pred].posn <= cells[j].posn)
  }

  /** A walk down from any state meets the split point. */
  lemma {:induction false} MeetsSplit(g: Glr, i: Ref) returns (n: nat)
    requires SplitOk(g) && g.split != NULL && Descending(g.cells)
    requires IsState(g.cells, i) && g.split <= i
    ensures Climb(g.cells, i, n) == g.split
    decreases i
  {
    if i == g.split {
      n := 0;
    } else {
      assert StepsDown(g.cells, i);
      n := MeetsSplit(g, g.cells[i].pred);
      n := n + 1;
    }
  }

  /** `yyupdateSplit`. */
  function Lowered(split: Ref, i: Ref): Ref {
    if split != NULL && split > i then i else split
  }

  /** `yysplitStack`. */
  function SplitStack(g: Glr, k: nat): Glr
    requires k < |g.tops|
  {
    g.(split := if g.split == NULL then g.tops[k] else g.split, tops := g.tops + [g.tops[k]])
  }

  /** `yymarkStackDeleted`. */
  function Kill(g: Glr, k: nat): Glr
    requires k < |g.tops|
  {
    g.(tops := g.tops[k := NULL])
  }

  /** `yyremoveDeletes`. */
  function Survivors(tops: seq<Ref>): (live: seq<Ref>)
    ensures forall r | r in live :: r in tops && r != NULL
    ensures |live| <= |tops|
  {
    if tops == [] then []
    else
      var rest := Survivors(tops[..|tops| - 1]);
      if tops[|tops| - 1] == NULL then rest else rest + [tops[|tops| - 1]]
  }

  /** `yyglrShift` of a terminal on stack `k`. */
  function ShiftToken(g: Glr, k: nat, lr: nat, posn: nat, token: nat): Glr
    requires k < |g.tops|
  {
    g.(cells := WithState(g.cells, lr, g.tops[k], posn, Val(Leaf(token))), tops := g.tops[k := |g.cells|])
  }

  /** The search of `yyglrReduce` in one stack: a state above `base` and the split point, not before
      `posn`, that is state `lr` on top of `base`. */
  function MergeInto(cells: Cells, p: Ref, base: Ref, split: Ref, posn: nat, lr: nat): (m: Ref)
    ensures m != NULL ==> IsState(cells, m) && m != split && m != base
    ensures m != NULL ==> cells[m].lr == lr && cells[m].pred == base && cells[m].posn >= posn
    ensures m <= p || m == NULL
    decreases p
  {
    if p == base || p == split || !IsState(cells, p) || cells[p].posn < posn then NULL
    else if cells[p].lr == lr && cells[p].pred == base then p
    else if cells[p].pred < p then MergeInto(cells, cells[p].pred, base, split, posn, lr)
    else NULL
  }

  /** The search over all stacks from number `i` on, stack `k` excepted. */
  function MergeTarget(cells: Cells, tops: seq<Ref>, k: nat, i: nat, base: Ref, split: Ref, posn: nat, lr: nat)
    : (m: Ref)
    ensures m != NULL ==> IsState(cells, m) && m != split && m != base
    ensures m != NULL ==> cells[m].lr == lr && cells[m].pred == base && cells[m].posn >= posn
    decreases |tops| - i
  {
    if i >= |tops| then NULL
    else
      var m := if i == k || tops[i] == NULL then NULL else MergeInto(cells, tops[i], base, split, posn, lr);
      if m != NULL then m else MergeTarget(cells, tops, k, i + 1, base, split, posn, lr)
  }

  /** The parameters of a deferred reduction of stack `k`: the state it leads back to, the split point
      afterwards, the goto, and the state to merge with. */
  function Base(t: Tables, g: Glr, k: nat, r: nat): Ref
    requires t.Sized() && t.IsRule(r) && IsLive(g, k)
  {
    Climb(g.cells, g.tops[k], t.r2[r])
  }

  /** The end of `yyglrReduce`: merge with an equal state of another stack, or push a new one. */
  function PushOrMerge(g: Glr, k: nat, base: Ref, lr: nat, posn: nat, top: Ref, r: nat): Glr
    requires k < |g.tops|
  {
    var m := MergeTarget(g.cells, g.tops, k, 0, base, g.split, posn, lr);
    if m != NULL then
      g.(cells := WithOption(g.cells, m, top, r), tops := g.tops[k := NULL])
    else
      g.(cells := WithOption(WithState(g.cells, lr, base, posn, Chain(NULL)), |g.cells|, top, r),
         tops := g.tops[k := |g.cells|])
  }

  /** The goto as a state number; the generator's gotos are not negative. */
  function Target(t: Tables, s: nat, lhs: nat): nat
    requires t.Sized() && t.nTokens <= lhs < t.nTokens + |t.pgoto|
  {
    if t.Goto(s, lhs) < 0 then 0 else t.Goto(s, lhs)
  }

  /** `yyglrReduce` in nondeterministic operation, the rule not being immediate. */
  function ReduceDeferred(t: Tables, g: Glr, k: nat, r: nat): Glr
    requires t.Sized() && t.IsRule(r) && IsLive(g, k)
    requires IsState(g.cells, Base(t, g, k, r)) && g.cells[Base(t, g, k, r)].lr < t.NStates()
  {
    var top := g.tops[k];
    var base := Base(t, g, k, r);
    PushOrMerge(g.(split := Lowered(g.split, base)), k, base, Target(t, g.cells[base].lr, t.r1[r]), g.cells[top].posn,
      top, r)
  }

  /** The values on top of a contiguous stack. */
  function TopValues(cells: Cells, n: nat): seq<Tree>
    requires n <= |cells|
  {
    seq(n, j requires 0 <= j < n =>
      var x := cells[|cells| - n + j]; if x.StateCell? && x.sem.Val? then x.sem.tree else Leaf(0))
  }

  /** `yyglrReduce` in deterministic operation, with the free semantic action. */
  function ReduceNow(t: Tables, g: Glr, r: nat): Glr
    requires t.Sized() && t.IsRule(r) && t.r2[r] < |g.cells| && |g.tops| == 1
    requires var b := g.cells[|g.cells| - 1 - t.r2[r]]; b.StateCell? && b.lr < t.NStates()
  {
    var n := t.r2[r];
    var below := g.cells[..|g.cells| - n];
    g.(cells := WithState(below, Target(t, below[|below| - 1].lr, t.r1[r]), |below| - 1, g.pos,
      Val(Node(r, TopValues(g.cells, n)))),
       tops := [|below|])
  }

  lemma CoreForest(t: Tables, c: Certificate, text: seq<nat>, g: Glr)
    requires Core(t, c, text, g)
    ensures Forest(t, c, text, g.cells) && Linked(g.cells) && Checked(t, c) && RulesMatch(t, c)
    ensures Descending(g.cells)
    ensures forall j | IsState(g.cells, j) :: g.cells[j].lr < t.NStates()
  {
    ForestLinked(t, c, text, g.cells);
    ForestChecked(t, c, text, g.cells);
    hide Checked, Spans, DerivesSpan, ChainOk;
    forall j | IsState(g.cells, j)
      ensures StepsDown(g.cells, j) && g.cells[j].lr < t.NStates()
    {
      assert StateOk(t, c, text, g.cells, j);
    }
  }

  /** In a forest no value has been clobbered. */
  lemma NoClobber(t: Tables, c: Certificate, text: seq<nat>, cells: Cells, i: Ref)
    requires Forest(t, c, text, cells) && IsState(cells, i)
    ensures !cells[i].sem.Clobbered?
  {
    hide Checked, Edge, Spans, DerivesSpan, ChainOk;
    ForestChecked(t, c, text, cells);
    assert StateOk(t, c, text, cells, i);
  }

  /** Lowering the split point to a state that a chain leads to keeps it in order. */
  lemma LoweredSplit(g: Glr, base: Ref)
    requires SplitOk(g) && g.split != NULL && IsState(g.cells, base)
    ensures SplitOk(g.(split := Lowered(g.split, base)))
  {
    forall i | IsState(g.cells, i) && Lowered(g.split, base) < i
      ensures Lowered(g.split, base) <= g.cells[i].pred
    {
      if i <= g.split { assert g.cells[i].pred == i - 1; }
    }
  }

  lemma SplitStackKeeps(t: Tables, c: Certificate, text: seq<nat>, g: Glr, k: nat)
    requires Inv(t, c, text, g) && IsLive(g, k)
    ensures Inv(t, c, text, SplitStack(g, k))
  {
    hide Forest;
  }

  lemma KillKeeps(t: Tables, c: Certificate, text: seq<nat>, g: Glr, k: nat)
    requires Inv(t, c, text, g) && g.split != NULL && k < |g.tops|
    ensures Inv(t, c, text, Kill(g, k))
  {
    hide Forest;
  }

  lemma SurvivorsKeep(t: Tables, c: Certificate, text: seq<nat>, g: Glr)
    requires Inv(t, c, text, g) && g.split != NULL
    ensures Inv(t, c, text, g.(tops := Survivors(g.tops)))
  {
    hide Forest;
    var g' := g.(tops := Survivors(g.tops));
    forall k | 0 <= k < |g'.tops|
      ensures g'.tops[k] != NULL && IsState(g.cells, g'.tops[k]) && g.cells[g'.tops[k]].posn == g.pos
      ensures g.split <= g'.tops[k]
    {
      assert g'.tops[k] in g.tops;
    }
  }

  lemma LeafDerives(c: Certificate, text: seq<nat>, i: nat)
    ensures DerivesSpan(c, Leaf(TokenAt(text, i)), TokenAt(text, i), text, i, i + 1)
  {
  }

  lemma ShiftKeeps(t: Tables, c: Certificate, text: seq<nat>, g: Glr, k: nat, lr: nat)
    requires Core(t, c, text, g) && TopsAt(g, k) && IsLive(g, k)
    requires RulesMatch(t, c) && Edge(t, c, g.cells[g.tops[k]].lr, TokenAt(text, g.pos), lr)
    ensures Core(t, c, text, ShiftToken(g, k, lr, g.pos + 1, TokenAt(text, g.pos)))
    ensures TopsAt(ShiftToken(g, k, lr, g.pos + 1, TokenAt(text, g.pos)), k + 1)
  {
    hide Forest, DerivesSpan, Edge, Checked;
    LeafDerives(c, text, g.pos);
    EdgeSymbol(t, c, g.cells[g.tops[k]].lr, TokenAt(text, g.pos), lr);
    PushForest(t, c, text, g.cells, lr, g.tops[k], g.pos + 1, Leaf(TokenAt(text, g.pos)));
    ShiftedSplit(g, k, lr, TokenAt(text, g.pos));
  }

  lemma ShiftedSplit(g: Glr, k: nat, lr: nat, token: nat)
    requires SplitOk(g) && TopsAt(g, k) && IsLive(g, k)
    requires forall j | 0 <= j < |g.tops| && g.tops[j] != NULL :: IsState(g.cells, g.tops[j])
    ensures var g' := ShiftToken(g, k, lr, g.pos + 1, token);
      && SplitOk(g') && TopsAt(g', k + 1)
      && forall j | 0 <= j < |g'.tops| && g'.tops[j] != NULL :: IsState(g'.cells, g'.tops[j])
  {
  }

  /** The search for a state to merge with goes down a chain, so it ends no later than it starts. */
  lemma {:induction false} MergeIntoBounds(cells: Cells, p: Ref, base: Ref, split: Ref, posn: nat, lr: nat)
    requires Descending(cells)
    requires IsState(cells, p) && MergeInto(cells, p, base, split, posn, lr) != NULL
    ensures cells[MergeInto(cells, p, base, split, posn, lr)].posn <= cells[p].posn
    decreases p
  {
    assert StepsDown(cells, p);
    if !(cells[p].lr == lr && cells[p].pred == base) { MergeIntoBounds(cells, cells[p].pred, base, split, posn, lr); }
  }

  lemma {:induction false} MergeTargetBounds(cells: Cells, tops: seq<Ref>, k: nat, i: nat, base: Ref, split: Ref,
                                             posn: nat, lr: nat)
    requires Descending(cells)
    requires forall j | 0 <= j < |tops| && tops[j] != NULL :: IsState(cells, tops[j]) && cells[tops[j]].posn == posn
    requires MergeTarget(cells, tops, k, i, base, split, posn, lr) != NULL
    ensures cells[MergeTarget(cells, tops, k, i, base, split, posn, lr)].posn == posn
    decreases |tops| - i
  {
    var m := if i == k || tops[i] == NULL then NULL else MergeInto(cells, tops[i], base, split, posn, lr);
    if m != NULL {
      MergeIntoBounds(cells, tops[i], base, split, posn, lr);
    } else {
      MergeTargetBounds(cells, tops, k, i + 1, base, split, posn, lr);
    }
  }

  /** The state that a deferred reduction would merge with, or NULL. */
  function Merging(t: Tables, g: Glr, k: nat, r: nat): Ref
    requires t.Sized() && t.IsRule(r) && IsLive(g, k)
    requires IsState(g.cells, Base(t, g, k, r)) && g.cells[Base(t, g, k, r)].lr < t.NStates()
  {
    var base := Base(t, g, k, r);
    MergeTarget(g.cells, g.tops, k, 0, base, Lowered(g.split, base), g.cells[g.tops[k]].posn,
      Target(t, g.cells[base].lr, t.r1[r]))
  }

  /** Deferred reductions go through, and the invariant survives them unless they merge with a state
      whose value is resolved already. */
  lemma ReduceDeferredKeeps(t: Tables, c: Certificate, text: seq<nat>, g: Glr, k: nat, r: nat)
    requires Inv(t, c, text, g) && g.split != NULL && IsLive(g, k)
    requires g.cells[g.tops[k]].lr < t.NStates() && RulesMatch(t, c) && ReductionSound(t, c, g.cells[g.tops[k]].lr, r)
    ensures IsState(g.cells, Base(t, g, k, r)) && g.cells[Base(t, g, k, r)].lr < t.NStates()
    ensures var m := Merging(t, g, k, r);
      m == NULL || g.cells[m].sem.Chain? ==> Inv(t, c, text, ReduceDeferred(t, g, k, r))
  {
    CoreForest(t, c, text, g);
    var top := g.tops[k];
    var posn := g.cells[top].posn;
    var v := ReduceInForest(t, c, text, g.cells, top, r);
    var base := Base(t, g, k, r);
    var split := Lowered(g.split, base);
    var lr := t.Goto(g.cells[base].lr, t.r1[r]);
    var m := Merging(t, g, k, r);
    assert Fits(t, c, g.cells, lr, base, posn, top, r);
    hide Forest, Edge, Fits, DerivesSpan, Checked, ReductionSound;
    if m != NULL {
      assert StepsDown(g.cells, m);
      if g.cells[m].sem.Chain? {
        MergeTargetBounds(g.cells, g.tops, k, 0, base, split, posn, lr);
        assert m > base;
        OptionForest(t, c, text, g.cells, m, top, r);
        MergedSplit(g, k, m, base, top, r);
      }
    } else {
      assert Spans(c, Symbol(t, lr), text, g.cells[base].posn, posn) by {
        EdgeSymbol(t, c, g.cells[base].lr, t.r1[r], lr);
      }
      EdgeSymbol(t, c, g.cells[base].lr, t.r1[r], lr);
      DeferForest(t, c, text, g.cells, lr, base, posn, top, r);
      PushedSplit(g, k, lr, base, posn, top, r);
    }
  }

  lemma MergedSplit(g: Glr, k: nat, m: Ref, base: Ref, top: Ref, r: nat)
    requires SplitOk(g) && g.split != NULL && TopsAt(g, 0) && k < |g.tops|
    requires forall j | 0 <= j < |g.tops| && g.tops[j] != NULL :: IsState(g.cells, g.tops[j])
    requires IsState(g.cells, base) && base < m && IsState(g.cells, m) && g.cells[m].pred == base
    requires m != Lowered(g.split, base)
    requires Descending(g.cells)
    ensures var g' := g.(cells := WithOption(g.cells, m, top, r), tops := g.tops[k := NULL],
      split := Lowered(g.split, base));
      && SplitOk(g') && TopsAt(g', 0)
      && forall j | 0 <= j < |g'.tops| && g'.tops[j] != NULL :: IsState(g'.cells, g'.tops[j])
  {
    hide SplitOk, Descending;
    OptionKinds(g.cells, m, top, r);
    MergedBelow(g, k, m, base, top, r);
  }

  /** An option more changes no predecessor and no position. */
  lemma OptionKinds(cells: Cells, m: Ref, top: Ref, r: nat)
    requires IsState(cells, m)
    ensures var b := WithOption(cells, m, top, r);
      && |b| == |cells| + 1
      && (forall i :: IsState(b, i) <==> IsState(cells, i))
      && (forall i | IsState(cells, i) ::
          b[i].pred == cells[i].pred && b[i].posn == cells[i].posn && b[i].lr == cells[i].lr)
      && (forall i | IsState(cells, i) && i != m :: b[i] == cells[i])
  {
  }

  lemma MergedBelow(g: Glr, k: nat, m: Ref, base: Ref, top: Ref, r: nat)
    requires SplitOk(g) && g.split != NULL && k < |g.tops| && Descending(g.cells)
    requires IsState(g.cells, base) && base < m && IsState(g.cells, m) && g.cells[m].pred == base
    requires m != Lowered(g.split, base)
    ensures SplitOk(g.(cells := WithOption(g.cells, m, top, r), tops := g.tops[k := NULL],
      split := Lowered(g.split, base)))
  {
    hide WithOption, Descending;
    OptionKinds(g.cells, m, top, r);
    var split := Lowered(g.split, base);
    var cells' := WithOption(g.cells, m, top, r);
    forall i | IsState(cells', i) && split < i
      ensures split <= cells'[i].pred
    {
      if i <= g.split { assert g.cells[i].pred == i - 1; }
    }
    forall i | 0 <= i <= split
      ensures IsState(cells', i) && cells'[i].pred == i - 1 && cells'[i].sem.Val?
    {
      assert i < m;
    }
  }

  lemma PushedSplit(g: Glr, k: nat, lr: nat, base: Ref, posn: nat, top: Ref, r: nat)
    requires SplitOk(g) && g.split != NULL && TopsAt(g, 0) && k < |g.tops| && posn == g.pos
    requires forall j | 0 <= j < |g.tops| && g.tops[j] != NULL :: IsState(g.cells, g.tops[j])
    requires IsState(g.cells, base)
    ensures var cells' := WithOption(WithState(g.cells, lr, base, posn, Chain(NULL)), |g.cells|, top, r);
      var g' := g.(cells := cells', tops := g.tops[k := |g.cells|], split := Lowered(g.split, base));
      && SplitOk(g') && TopsAt(g', 0)
      && forall j | 0 <= j < |g'.tops| && g'.tops[j] != NULL :: IsState(g'.cells, g'.tops[j])
  {
    var split := Lowered(g.split, base);
    var cells' := WithOption(WithState(g.cells, lr, base, posn, Chain(NULL)), |g.cells|, top, r);
    forall i | IsState(cells', i) && split < i
      ensures split <= cells'[i].pred
    {
      if i <= g.split { assert g.cells[i].pred == i - 1; }
    }
  }

  /** On a contiguous stack climbing is subtraction, and the values climbed over are the top ones. */
  lemma {:induction false} ContiguousClimb(cells: Cells, i: Ref, n: nat, vs: seq<Tree>)
    requires Contiguous(cells, |cells| - 1) && n <= i < |cells|
    requires |vs| == n && ValuesAre(cells, i, vs)
    ensures Climb(cells, i, n) == i - n
    ensures vs == TopValues(cells[..i + 1], n)
    decreases n
  {
    if n > 0 {
      assert IsState(cells, i) && IsState(cells, i - 1);
      ContiguousClimb(cells, i - 1, n - 1, vs[..n - 1]);
      assert TopValues(cells[..i + 1], n)[..n - 1] == TopValues(cells[..i], n - 1);
    }
  }

  lemma ClimbIsSubtraction(cells: Cells, i: Ref, n: nat)
    requires Contiguous(cells, |cells| - 1) && n <= i < |cells|
    ensures Climb(cells, i, n) == i - n
    decreases n
  {
    if n > 0 { ClimbIsSubtraction(cells, i - 1, n - 1); }
  }

  /** Whether a resolved state is well formed depends on its cell and its predecessor's only. */
  lemma ResolvedState(t: Tables, c: Certificate, text: seq<nat>, a: Cells, b: Cells, i: Ref)
    requires RulesMatch(t, c) && IsState(a, i) && a[i].sem.Val? && StateOk(t, c, text, a, i)
    requires IsState(b, i) && b[i] == a[i]
    requires IsState(a, a[i].pred) ==> IsState(b, a[i].pred) && b[a[i].pred] == a[a[i].pred]
    ensures StateOk(t, c, text, b, i)
  {
    hide Edge, Spans, DerivesSpan, ChainOk;
  }

  /** The linear part of an arena is a forest by itself. */
  lemma PrefixForest(t: Tables, c: Certificate, text: seq<nat>, cells: Cells, n: nat)
    requires Forest(t, c, text, cells) && 0 < n <= |cells| && Contiguous(cells, n - 1)
    ensures Forest(t, c, text, cells[..n]) && Contiguous(cells[..n], n - 1)
  {
    ForestChecked(t, c, text, cells);
    hide Checked, StateOk;
    var below := cells[..n];
    forall i | IsState(below, i)
      ensures StateOk(t, c, text, below, i)
    {
      assert IsState(cells, i);
      if i > 0 { assert IsState(cells, i - 1); }
      assert below[i] == cells[i];
      ResolvedState(t, c, text, cells, below, i);
    }
  }

  /** The height of a path in a contiguous stack. */
  lemma {:induction false} ContiguousPath(cells: Cells, i: Ref)
    requires Contiguous(cells, |cells| - 1) && 0 <= i < |cells|
    ensures |Path(cells, i)| == i + 1
    ensures forall j | 0 <= j <= i :: Path(cells, i)[j] == cells[j].lr
    decreases i
  {
    assert IsState(cells, i);
    if i > 0 { ContiguousPath(cells, i - 1); }
  }

  /** The arena without the right-hand side of rule `r`, and with the goto on top, is in order. */
  ghost predicate PopsTo(t: Tables, c: Certificate, text: seq<nat>, cells: Cells, r: nat) {
    && t.Sized() && r < |t.r1| && r < |t.r2| && t.r2[r] < |cells| && t.nTokens <= t.r1[r] < t.nTokens + |t.pgoto|
    && var base := |cells| - 1 - t.r2[r];
    && IsState(cells, base) && IsState(cells, |cells| - 1) && cells[base].lr < t.NStates()
    && var lr := t.Goto(cells[base].lr, t.r1[r]);
    && lr > 0
    && var b := WithState(cells[..base + 1], lr, base, cells[|cells| - 1].posn,
        Val(Node(r, TopValues(cells, t.r2[r]))));
    && Forest(t, c, text, b) && Contiguous(b, |b| - 1)
  }

  /** Popping a right-hand side off a contiguous stack and pushing the goto. */
  lemma PopAndPush(t: Tables, c: Certificate, text: seq<nat>, cells: Cells, r: nat)
    requires Forest(t, c, text, cells) && Contiguous(cells, |cells| - 1) && IsState(cells, |cells| - 1)
    requires RulesMatch(t, c) && cells[|cells| - 1].lr < t.NStates() && ReductionSound(t, c, cells[|cells| - 1].lr, r)
    ensures PopsTo(t, c, text, cells, r)
  {
    hide Forest, Edge, Checked, TopValues, ValuesAre, DerivesSpan, Climb, Contiguous;
    var top := |cells| - 1;
    var n := t.r2[r];
    EnoughBelow(t, c, text, cells, r);
    var base := top - n;
    ContiguousState(cells, base);
    ClimbIsSubtraction(cells, top, n);
    var v := ReduceInForest(t, c, text, cells, top, r);
    ContiguousClimb(cells, top, n, v.kids);
    assert cells[..top + 1] == cells;
    ContiguousLower(cells, top, base);
    PrefixForest(t, c, text, cells, base + 1);
    var lr := t.Goto(cells[base].lr, t.r1[r]);
    EdgeSymbol(t, c, cells[base].lr, t.r1[r], lr);
    assert v == Node(r, TopValues(cells, n));
    PositionsRise(t, c, text, cells, base, top);
    PushForest(t, c, text, cells[..base + 1], lr, base, cells[top].posn, v);
    PushedContiguous(cells[..base + 1], lr, cells[top].posn, v);
  }

  lemma ContiguousLower(cells: Cells, n: int, m: int)
    requires Contiguous(cells, n) && m <= n
    ensures Contiguous(cells, m)
  {
  }

  lemma ContiguousState(cells: Cells, i: Ref)
    requires Contiguous(cells, |cells| - 1) && 0 <= i < |cells|
    ensures IsState(cells, i)
  {
  }

  lemma {:induction false} PositionsRise(t: Tables, c: Certificate, text: seq<nat>, cells: Cells, i: Ref, j: Ref)
    requires Forest(t, c, text, cells) && Contiguous(cells, |cells| - 1) && 0 <= i <= j < |cells|
    ensures IsState(cells, i) && IsState(cells, j) && cells[i].posn <= cells[j].posn
    decreases j
  {
    hide Forest, Path, Edge;
    assert IsState(cells, i) && IsState(cells, j);
    Below(t, c, text, cells, j);
    if i < j { PositionsRise(t, c, text, cells, i, j - 1); }
  }

  /** Reductions in deterministic operation. */
  lemma ReduceNowKeeps(t: Tables, c: Certificate, text: seq<nat>, g: Glr, r: nat)
    requires Inv(t, c, text, g) && g.split == NULL
    requires RulesMatch(t, c) && g.cells[|g.cells| - 1].lr < t.NStates()
    requires ReductionSound(t, c, g.cells[|g.cells| - 1].lr, r)
    ensures t.r2[r] < |g.cells|
    ensures var b := g.cells[|g.cells| - 1 - t.r2[r]]; b.StateCell? && b.lr < t.NStates()
    ensures Inv(t, c, text, ReduceNow(t, g, r))
  {
    hide Forest, Checked, TopValues, ReductionSound;
    ForestChecked(t, c, text, g.cells);
    ContiguousState(g.cells, |g.cells| - 1);
    PopAndPush(t, c, text, g.cells, r);
  }

  lemma PushedContiguous(cells: Cells, lr: nat, posn: nat, v: Tree)
    requires Contiguous(cells, |cells| - 1)
    ensures var b := WithState(cells, lr, |cells| - 1, posn, Val(v)); Contiguous(b, |b| - 1)
  {
  }

  lemma EnoughBelow(t: Tables, c: Certificate, text: seq<nat>, cells: Cells, r: nat)
    requires Forest(t, c, text, cells) && Contiguous(cells, |cells| - 1)
    requires RulesMatch(t, c) && cells[|cells| - 1].lr < t.NStates() && ReductionSound(t, c, cells[|cells| - 1].lr, r)
    ensures t.r2[r] < |cells|
  {
    hide Forest, Checked;
    ForestChecked(t, c, text, cells);
    assert IsState(cells, |cells| - 1);
    ContiguousPath(cells, |cells| - 1);
    PathOk(t, c, text, cells, |cells| - 1);
    ReduceOnPath(t, c, Path(cells, |cells| - 1), r);
  }

  /** In the final state the deterministic stack holds a derivation of all tokens up to the end
      marker from the start symbol. */
  lemma AcceptedIsSentence(t: Tables, c: Certificate, text: seq<nat>, g: Glr)
    requires Inv(t, c, text, g) && g.split == NULL
    requires g.cells[|g.cells| - 1].StateCell? && g.cells[|g.cells| - 1].lr == t.final
    ensures |g.cells| == 3 && g.cells[1].StateCell? && g.cells[1].sem.Val?
    ensures |c.g| > ACCEPT && |c.g[ACCEPT].rhs| == 2
    ensures var v := g.cells[1].sem.tree;
      && Derivation(c.g, v) && Root(c.g, v) == c.g[ACCEPT].rhs[0]
      && Yield(v) + [EOF] == Delivered(text, g.pos)
  {
    hide Forest, Checked, Edge, Path, DerivesSpan;
    ForestChecked(t, c, text, g.cells);
    var cells := g.cells;
    var top := |cells| - 1;
    ContiguousState(cells, top);
    ContiguousPath(cells, top);
    PathOk(t, c, text, cells, top);
    var path := Path(cells, top);
    FinalStack(t, c, path);
    assert Symbols(t, path) == [Symbol(t, path[1]), Symbol(t, path[2])];
    assert IsState(cells, 0) && IsState(cells, 1) && IsState(cells, 2);
    ValueDerives(t, c, text, cells, 1);
    ValueDerives(t, c, text, cells, 2);
    BottomPosition(t, c, text, cells);
    FirstSpan(c, cells[1].sem.tree, Symbol(t, cells[1].lr), text, cells[1].posn);
    EofSpan(t, c, cells[2].sem.tree, text, cells[1].posn, cells[2].posn);
  }

  lemma BottomPosition(t: Tables, c: Certificate, text: seq<nat>, cells: Cells)
    requires Forest(t, c, text, cells)
    ensures IsState(cells, 0) && cells[0].posn == 0
  {
    assert StateOk(t, c, text, cells, 0);
  }

  lemma FirstSpan(c: Certificate, v: Tree, symbol: nat, text: seq<nat>, j: nat)
    requires DerivesSpan(c, v, symbol, text, 0, j)
    ensures Derivation(c.g, v) && Root(c.g, v) == symbol && Yield(v) == Delivered(text, j)
  {
  }

  lemma EofSpan(t: Tables, c: Certificate, v: Tree, text: seq<nat>, i: nat, j: nat)
    requires RulesMatch(t, c) && DerivesSpan(c, v, EOF, text, i, j)
    ensures i <= j && Delivered(text, i) + [EOF] == Delivered(text, j)
  {
    assert Span(text, i, j) == [EOF];
  }
}
