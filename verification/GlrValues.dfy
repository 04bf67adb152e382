/** The recursion of `yyresolveValue`, `yyresolveAction` and `yyresolveStates`: it ends for every grammar
    that is not cyclic, and gives every state a derivation of its symbol. */
module GlrValues {
  import opened Grammar
  import opened LrTables
  import opened GlrForest
  import opened GlrOptions
  import opened GlrLoose
  import opened GlrRank
  import opened GlrResolve
  import opened GlrChoice
  import opened GlrTrace
  import opened GlrEvaluate
  import opened UnitSteps

  /** Merging two derivations of the same tokens from the same symbol gives another one. */
  ghost predicate MergeSound(g: Rules, merge: Merger) {
    forall n, x, y :: MergeOk(g, merge, n, x, y)
  }

  ghost predicate MergeOk(g: Rules, merge: Merger, n: nat, x: Tree, y: Tree) {
    Derivation(g, x) && Derivation(g, y) && Root(g, x) == Root(g, y) && Yield(x) == Yield(y) ==>
      var v := merge(n, x, y);
      Derivation(g, v) && Root(g, v) == Root(g, x) && Yield(v) == Yield(x)
  }

  ghost predicate Spanned(t: Tables, c: Certificate, text: seq<nat>, sig: Signature, v: Tree) {
    DerivesSpan(c, v, sig.symbol, text, sig.from, sig.to)
  }

  /** The states from `i` down are to be resolved before anything of rank `rank`. */
  ghost predicate BelowRank(t: Tables, c: Certificate, cells: Cells, i: Ref, n: nat, rank: nat) {
    forall d | 0 <= d < n :: Lower(t, c, cells, Climb(cells, i, d), rank)
  }

  ghost predicate Lower(t: Tables, c: Certificate, cells: Cells, s: Ref, rank: nat) {
    IsState(cells, s) && s > 0 && RankAt(t, c, cells, s) < rank
  }

  lemma BelowPred(t: Tables, c: Certificate, cells: Cells, i: Ref, n: nat, rank: nat)
    requires BelowRank(t, c, cells, i, n, rank) && n > 0
    ensures Lower(t, c, cells, i, rank) && BelowRank(t, c, cells, cells[i].pred, n - 1, rank)
  {
    hide Lower, RankAt;
    assert Lower(t, c, cells, Climb(cells, i, 0), rank);
    LowerState(t, c, cells, i, rank);
    forall d | 0 <= d < n - 1
      ensures Lower(t, c, cells, Climb(cells, cells[i].pred, d), rank)
    {
      assert Lower(t, c, cells, Climb(cells, i, d + 1), rank);
    }
  }

  lemma LowerState(t: Tables, c: Certificate, cells: Cells, i: Ref, rank: nat)
    requires Lower(t, c, cells, i, rank)
    ensures IsState(cells, i) && i > 0 && RankAt(t, c, cells, i) < rank
  {
  }

  lemma RhsBelow(t: Tables, c: Certificate, text: seq<nat>, cells: Cells, k: Ref)
    requires Stems(t, c, text, cells) && OptionFits(t, c, cells, k) && !Cyclic(c.g)
    ensures IsOption(cells, k) && cells[k].rule < |t.r2|
    ensures BelowRank(t, c, cells, cells[k].rhs, t.r2[cells[k].rule], RankAt(t, c, cells, k))
  {
    hide Stems, OptionFits, Cyclic, RankAt;
    FitsOption(t, c, cells, k);
    forall d | 0 <= d < t.r2[cells[k].rule]
      ensures Lower(t, c, cells, Climb(cells, cells[k].rhs, d), RankAt(t, c, cells, k))
    {
      RhsRank(t, c, text, cells, k, d);
    }
  }

  /** Resolving one more state on top of those below. */
  lemma ResolvedUp(t: Tables, c: Certificate, a: Cells, b: Cells, i: Ref, n: nat, rank: nat)
    requires n > 0 && IsState(a, i) && ResolvedDown(a, a[i].pred, n - 1) && Kept(t, c, a, b, rank)
    requires IsState(b, i) && b[i].sem.Val?
    ensures ResolvedDown(b, i, n)
  {
    hide RankAt;
    forall d | 0 <= d < n
      ensures HasValue(b, Climb(b, i, d))
    {
      ClimbFrame(a, b, i, d);
      if d > 0 { assert HasValue(a, Climb(a, a[i].pred, d - 1)); }
    }
  }

  /** What the values of a right-hand side, all of them known, amount to. */
  lemma ActionValue(t: Tables, c: Certificate, text: seq<nat>, cells: Cells, k: Ref)
    requires Stems(t, c, text, cells) && OptionFits(t, c, cells, k) && IsOption(cells, k) && cells[k].rule < |t.r2|
    requires ResolvedDown(cells, cells[k].rhs, t.r2[cells[k].rule])
    ensures Spanned(t, c, text, OptionSig(t, cells, k),
      Node(cells[k].rule, ValuesDown(cells, cells[k].rhs, t.r2[cells[k].rule])))
  {
    hide Stems, Forest, Checked, Path, Symbols, Edge, DerivesSpan, ResolvedDown, ValuesDown, ValuesAre;
    var full := Fill(t, c, text, cells);
    var o := cells[k];
    SigFrame(t, c, cells, full, k);
    assert CellFrame(cells[k], full[k]);
    RhsPath(t, c, text, full, k);
    var v := ReduceInForest(t, c, text, full, o.rhs, o.rule);
    SameValues(cells, full, o.rhs, t.r2[o.rule], v.kids);
    ClimbFrame(cells, full, o.rhs, t.r2[o.rule]);
    assert v == Node(o.rule, ValuesDown(cells, o.rhs, t.r2[o.rule]));
  }

  lemma {:induction false} SameValues(cells: Cells, full: Cells, i: Ref, n: nat, vs: seq<Tree>)
    requires SameFrame(cells, full) && forall j | IsState(cells, j) && cells[j].sem.Val? :: full[j] == cells[j]
    requires ResolvedDown(cells, i, n) && |vs| == n && ValuesAre(full, i, vs)
    ensures vs == ValuesDown(cells, i, n)
    decreases n
  {
    if n > 0 {
      assert HasValue(cells, Climb(cells, i, 0));
      forall d | 0 <= d < n - 1
        ensures HasValue(cells, Climb(cells, cells[i].pred, d))
      {
        assert HasValue(cells, Climb(cells, i, d + 1));
      }
      SameValues(cells, full, cells[i].pred, n - 1, vs[..n - 1]);
      assert vs == vs[..n - 1] + [vs[n - 1]];
    }
  }

  /** Setting the value of a state. */
  lemma ValueSet(t: Tables, c: Certificate, text: seq<nat>, a: Cells, live: set<Ref>, i: Ref, v: Tree)
    requires Loose(t, c, text, a, live) && IsState(a, i) && i > 0 && Spanned(t, c, text, StateSig(t, a, i), v)
    ensures var b := a[i := a[i].(sem := Val(v))];
      Loose(t, c, text, b, live) && Kept(t, c, a, b, RankAt(t, c, a, i) + 1)
  {
    hide Checked, Edge, Spans, DerivesSpan, OptionFits, LinkOk, OptionSig, RankOf;
    var b := a[i := a[i].(sem := Val(v))];
    assert StemOk(t, c, text, a, i);
    assert StemOk(t, c, text, b, i);
    hide StemOk;
    LooseStays(t, c, text, a, b, live);
  }

  lemma Merged(t: Tables, c: Certificate, text: seq<nat>, merge: Merger, sig: Signature, n: nat, x: Tree, y: Tree)
    requires MergeSound(c.g, merge) && Spanned(t, c, text, sig, x) && Spanned(t, c, text, sig, y)
    ensures Spanned(t, c, text, sig, merge(n, x, y))
  {
    assert MergeOk(c.g, merge, n, x, y);
  }

  /** The chain of state `i` after the selection. */
  ghost predicate OnChain(t: Tables, cells: Cells, live: set<Ref>, kept: seq<Ref>, sig: Signature) {
    forall x | x in kept :: x in live && IsOption(cells, x) && OptionSig(t, cells, x) == sig
  }

  /** Step number `j` of the walk along the chain from the best option. */
  ghost predicate Walking(t: Tables, w: Priorities, merge: Merger, past: seq<Cells>, cells: Cells, rs: seq<nat>,
                          kept: seq<Ref>, b: nat, m: bool, j: nat, p: Ref, n: nat, v: Tree, vs: seq<Tree>,
                          arenas: seq<Cells>) {
    && |rs| == |kept| && b < j <= |kept| && Picks(w, rs, b, m) && n == w.merger[rs[b]]
    && Chained(cells, p) && ChainOf(cells, p) == kept[j..]
    && vs != [] && v == Fold(merge, n, vs)
    && Acted(t, past, [kept[b]] + SamePrecedence(w, rs, kept, b, j), vs, arenas)
  }

  lemma WalkStart(t: Tables, w: Priorities, merge: Merger, past: seq<Cells>, cells: Cells, rs: seq<nat>, kept: seq<Ref>,
                  b: nat, m: bool, first: Ref, v: Tree)
    requires |rs| == |kept| && b < |kept| && Picks(w, rs, b, m)
    requires Chained(cells, first) && ChainOf(cells, first) == kept && cells in past && Acts(t, cells, kept[b], v)
    ensures IsOption(cells, kept[b])
    ensures Walking(t, w, merge, past, cells, rs, kept, b, m, b + 1,
      cells[kept[b]].next, w.merger[rs[b]], v, [v], [cells])
  {
    hide Picks, Fold, Chained, ChainOf, SamePrecedence, Acted, Acts;
    assert kept[b] in kept;
    ChainFrom(cells, first, b);
    ChainedFrom(cells, first, kept[b]);
    ChainDecreases(cells, first);
    ChainedStep(cells, kept[b]);
    assert kept[b..][1..] == kept[b + 1..];
    PicksRules(w, rs, b, m);
    FirstActed(t, w, merge, past, cells, rs, kept, b, w.merger[rs[b]], v);
  }

  lemma FirstActed(t: Tables, w: Priorities, merge: Merger, past: seq<Cells>, cells: Cells, rs: seq<nat>,
                   kept: seq<Ref>, b: nat, n: nat, v: Tree)
    requires b < |rs| == |kept| && (forall i | 0 <= i < |rs| :: rs[i] < |w.dprec|) && cells in past
    requires Acts(t, cells, kept[b], v)
    ensures Fold(merge, n, [v]) == v
    ensures Acted(t, past, [kept[b]] + SamePrecedence(w, rs, kept, b, b + 1), [v], [cells])
  {
    hide Acts;
    assert [kept[b]] + SamePrecedence(w, rs, kept, b, b + 1) == [kept[b]];
  }

  lemma PicksRules(w: Priorities, rs: seq<nat>, b: nat, m: bool)
    requires Picks(w, rs, b, m)
    ensures |w.dprec| == |w.merger| && b < |rs| && forall i | 0 <= i < |rs| :: rs[i] < |w.dprec|
  {
  }

  lemma {:induction false} ChainedFrom(cells: Cells, first: Ref, x: Ref)
    requires Chained(cells, first) && x in ChainOf(cells, first)
    ensures Chained(cells, x)
    decreases first
  {
    if x != first { ChainedFrom(cells, cells[first].next, x); }
  }

  /** The option that the walk has come to. */
  lemma WalkAt(t: Tables, w: Priorities, merge: Merger, past: seq<Cells>, cells: Cells, rs: seq<nat>, kept: seq<Ref>,
               b: nat, m: bool, j: nat, p: Ref, n: nat, v: Tree, vs: seq<Tree>, arenas: seq<Cells>)
    requires Walking(t, w, merge, past, cells, rs, kept, b, m, j, p, n, v, vs, arenas) && p != NULL
    ensures |w.dprec| == |w.merger|
    ensures j < |kept| && kept[j] == p && IsOption(cells, p) && rs[j] < |w.dprec| && rs[b] < |w.dprec|
    ensures cells[p].next < p
    ensures w.dprec[rs[j]] == w.dprec[rs[b]] ==> n == w.merger[rs[j]] && n != 0
    ensures Chained(cells, cells[p].next) && ChainOf(cells, cells[p].next) == kept[j + 1..]
  {
    hide Fold, Acted, SamePrecedence;
    ChainedStep(cells, p);
    assert kept[j..][0] == p && kept[j..][1..] == kept[j + 1..];
  }

  /** Passing an option by, if its precedence is another. */
  lemma WalkPast(t: Tables, w: Priorities, merge: Merger, past: seq<Cells>, cells: Cells, rs: seq<nat>, kept: seq<Ref>,
                 b: nat, m: bool, j: nat, p: Ref, n: nat, v: Tree, vs: seq<Tree>, arenas: seq<Cells>)
    requires Walking(t, w, merge, past, cells, rs, kept, b, m, j, p, n, v, vs, arenas) && p != NULL
    requires j < |rs| && rs[j] < |w.dprec| && b < |rs| && rs[b] < |w.dprec| && w.dprec[rs[j]] != w.dprec[rs[b]]
    ensures IsOption(cells, p)
    ensures Walking(t, w, merge, past, cells, rs, kept, b, m, j + 1, cells[p].next, n, v, vs, arenas)
  {
    hide Chained, ChainOf, Fold, Acted;
    WalkAt(t, w, merge, past, cells, rs, kept, b, m, j, p, n, v, vs, arenas);
    assert [kept[b]] + SamePrecedence(w, rs, kept, b, j + 1) == [kept[b]] + SamePrecedence(w, rs, kept, b, j);
  }

  /** Merging its value, if its precedence is that of the best. */
  lemma WalkMerge(t: Tables, w: Priorities, merge: Merger, past: seq<Cells>, cells: Cells, rs: seq<nat>, kept: seq<Ref>,
                  b: nat, m: bool, j: nat, p: Ref, n: nat, v: Tree, vs: seq<Tree>, arenas: seq<Cells>, y: Tree)
    requires Walking(t, w, merge, past, cells, rs, kept, b, m, j, p, n, v, vs, arenas) && p != NULL
    requires j < |rs| && rs[j] < |w.dprec| && b < |rs| && rs[b] < |w.dprec| && w.dprec[rs[j]] == w.dprec[rs[b]]
    requires cells in past && Acts(t, cells, p, y)
    ensures IsOption(cells, p)
    ensures Walking(t, w, merge, past, cells, rs, kept, b, m, j + 1, cells[p].next, n,
      merge(n, v, y), vs + [y], arenas + [cells])
  {
    hide Chained, ChainOf, Fold, Acted, Acts;
    WalkAt(t, w, merge, past, cells, rs, kept, b, m, j, p, n, v, vs, arenas);
    FoldNext(merge, n, vs, y);
    ActedNext(t, past, [kept[b]] + SamePrecedence(w, rs, kept, b, j), vs, arenas, p, y, cells);
    assert [kept[b]] + SamePrecedence(w, rs, kept, b, j + 1) == ([kept[b]] + SamePrecedence(w, rs, kept, b, j)) + [p];
  }

  lemma WalkEnd(t: Tables, w: Priorities, merge: Merger, past: seq<Cells>, cells: Cells, rs: seq<nat>, kept: seq<Ref>,
                b: nat, m: bool, j: nat, p: Ref, n: nat, v: Tree, vs: seq<Tree>, arenas: seq<Cells>)
    requires Walking(t, w, merge, past, cells, rs, kept, b, m, j, p, n, v, vs, arenas)
    requires p == NULL
    ensures ValueOf(t, w, merge, past, rs, kept, b, m, v)
  {
    hide Chained, Fold, Picks, Acted;
    assert j == |kept| by { assert kept[j..] == []; }
    assert ValueBy(t, w, merge, past, rs, kept, b, m, v, vs, arenas);
  }

  /** Without others of its precedence the value of the best option is the result. */
  lemma AloneValue(t: Tables, w: Priorities, merge: Merger, past: seq<Cells>, cells: Cells, rs: seq<nat>,
                   kept: seq<Ref>, b: nat, v: Tree)
    requires |rs| == |kept| && b < |kept| && Picks(w, rs, b, false) && cells in past && Acts(t, cells, kept[b], v)
    ensures ValueOf(t, w, merge, past, rs, kept, b, false, v)
  {
    hide Acts;
    NoOthers(w, rs, kept, b, |kept|);
    assert [kept[b]] + SamePrecedence(w, rs, kept, b, |kept|) == [kept[b]];
    assert ValueBy(t, w, merge, past, rs, kept, b, false, v, [v], [cells]);
  }

  lemma {:induction false} NoOthers(w: Priorities, rs: seq<nat>, kept: seq<Ref>, b: nat, j: nat)
    requires |rs| == |kept| && b < |kept| && j <= |kept| && Picks(w, rs, b, false)
    ensures SamePrecedence(w, rs, kept, b, j) == []
    decreases j
  {
    if j > b + 1 { NoOthers(w, rs, kept, b, j - 1); }
  }

  lemma WalkKept(t: Tables, c: Certificate, w: Priorities, merge: Merger, past: seq<Cells>, more: seq<Cells>, a: Cells,
                 z: Cells, rs: seq<nat>, kept: seq<Ref>, b: nat, m: bool, j: nat, p: Ref, n: nat, v: Tree,
                 vs: seq<Tree>, arenas: seq<Cells>, rank: nat)
    requires Walking(t, w, merge, past, a, rs, kept, b, m, j, p, n, v, vs, arenas) && Kept(t, c, a, z, rank)
    requires past <= more
    requires forall x | x in kept :: IsOption(a, x) && rank <= RankAt(t, c, a, x)
    ensures Walking(t, w, merge, more, z, rs, kept, b, m, j, p, n, v, vs, arenas)
  {
    hide RankAt, Chained, Fold, Picks, Acted, SamePrecedence, ChainOf;
    KeptKinds(t, c, a, z, rank);
    forall x | x in ChainOf(a, p) && 0 <= x < |a|
      ensures z[x] == a[x]
    {
      assert x in kept[j..];
      assert x in kept;
    }
    ChainKept(a, z, p);
    if b < |rs| == |kept| && j <= |kept| && Picks(w, rs, b, m) {
      PicksRules(w, rs, b, m);
      ActedMore(t, past, more, [kept[b]] + SamePrecedence(w, rs, kept, b, j), vs, arenas);
    }
  }

  lemma {:induction false} ChainFacts(t: Tables, c: Certificate, a: Cells, z: Cells, live: set<Ref>, kept: seq<Ref>,
                                      sig: Signature, rank: nat)
    requires OnChain(t, a, live, kept, sig) && Kept(t, c, a, z, rank)
    ensures OnChain(t, z, live, kept, sig)
    ensures forall x | x in kept :: RankAt(t, c, a, x) == RankOf(t, c, sig) == RankAt(t, c, z, x)
  {
    hide RankOf, OptionSig;
    forall x | x in kept
      ensures IsOption(z, x) && OptionSig(t, z, x) == sig
      ensures RankAt(t, c, a, x) == RankOf(t, c, sig) == RankAt(t, c, z, x)
    {
      SigFrame(t, c, a, z, x);
    }
  }

  lemma ChainRules(cells: Cells, now: Cells, kept: seq<Ref>)
    requires SameFrame(cells, now) && forall x | x in kept :: IsOption(now, x)
    ensures RulesOf(cells, kept) == RulesOf(now, kept)
    ensures forall j | 0 <= j < |kept| :: IsOption(now, kept[j]) && RulesOf(now, kept)[j] == now[kept[j]].rule
  {
    forall j | 0 <= j < |kept|
      ensures RulesOf(cells, kept)[j] == RulesOf(now, kept)[j] == now[kept[j]].rule
    {
      assert kept[j] in kept;
      assert CellFrame(cells[kept[j]], now[kept[j]]);
    }
  }

  /** `yyresolveStates`. */
  method ResolveStates(cells: array<Cell>, t: Tables, w: Priorities, merge: Merger, i: Ref, n: nat,
                       ghost c: Certificate, ghost text: seq<nat>, ghost live: set<Ref>, ghost rank: nat,
                       ghost past: seq<Cells>)
    returns (ok: bool, ghost trace: seq<Cells>)
    requires Loose(t, c, text, cells[..], live) && !Cyclic(c.g) && MergeSound(c.g, merge)
    requires |w.dprec| == |w.merger| == |t.r2|
    requires BelowRank(t, c, cells[..], i, n, rank) && past != [] && Run(t, w, merge, past)
    requires cells[..] == Reached(past)
    modifies cells
    ensures trace != [] && Resolves(t, w, merge, c, text, live, past, trace, cells[..], rank, ok)
    ensures if ok then ResolvedDown(cells[..], i, n) else StuckDown(t, w, Reached(trace), i, n)
    ensures Ended(ok, cells[..]) == StatesOn(t, w, merge, old(cells[..]), i, n, rank)
    decreases rank, 0, n + 1
  {
    hide Loose, Cyclic, MergeSound, Kept, BelowRank, ResolvedDown, RankAt, StateSig, OptionSig, Lower, Climb, SameFrame,
      CellFrame, Run, Resolves, StuckDown, Stuck, StatesOn, StateOn;
    ghost var before := cells[..];
    if n == 0 {
      ResolvesSelf(t, w, merge, c, text, live, past, rank);
      NothingDown(t, w, merge, before, i, rank);
      return true, past;
    }
    BelowPred(t, c, before, i, n, rank);
    LowerState(t, c, before, i, rank);
    StatesStep(t, w, merge, before, i, n, rank);
    var p := cells[i].pred;
    ok, trace := ResolveStates(cells, t, w, merge, p, n - 1, c, text, live, rank, past);
    if !ok {
      FailedFrame(t, w, merge, c, text, live, past, trace, cells[..], rank, i);
      StuckBelow(t, w, Reached(trace), i, n);
      return;
    }
    ghost var now := cells[..];
    ghost var mid := trace;
    ResolvesParts(t, w, merge, c, text, live, past, mid, now, rank);
    KeptSigs(t, c, before, now, rank, i);
    if !cells[i].sem.Val? {
      StemKind(t, c, text, now, live, i);
      ok, trace := ResolveOne(cells, t, w, merge, i, c, text, live, rank, mid);
      ResolvesTrans(t, w, merge, c, text, live, past, mid, now, trace, cells[..], rank, ok);
      if !ok {
        StuckTop(t, w, Reached(trace), i, n);
        return;
      }
      ResolvesParts(t, w, merge, c, text, live, mid, trace, cells[..], rank);
    } else {
      KeptSelf(t, c, now, rank);
      KnownState(t, w, merge, now, i, rank);
    }
    ResolvedUp(t, c, now, cells[..], i, n, rank);
  }

  /** `yyresolveValue` for a state of a right-hand side. */
  method ResolveOne(cells: array<Cell>, t: Tables, w: Priorities, merge: Merger, i: Ref, ghost c: Certificate,
                    ghost text: seq<nat>, ghost live: set<Ref>, ghost rank: nat, ghost past: seq<Cells>)
    returns (ok: bool, ghost trace: seq<Cells>)
    requires Loose(t, c, text, cells[..], live) && !Cyclic(c.g) && MergeSound(c.g, merge)
    requires |w.dprec| == |w.merger| == |t.r2|
    requires IsState(cells[..], i) && i > 0 && cells[i].sem.Chain? && RankAt(t, c, cells[..], i) < rank
    requires past != [] && Run(t, w, merge, past) && cells[..] == Reached(past)
    modifies cells
    ensures trace != [] && Resolves(t, w, merge, c, text, live, past, trace, cells[..], rank, ok)
    ensures if ok then HasValue(cells[..], i) else Stuck(t, w, Reached(trace), i)
    ensures Ended(ok, cells[..]) == StateOn(t, w, merge, old(cells[..]), i, rank)
    decreases rank, 0, 0
  {
    hide Loose, Cyclic, MergeSound, Kept, RankAt, SameFrame, Settles, Run, Resolves, Stuck, ValueOn;
    ghost var now := cells[..];
    ghost var kept, b, m;
    ok, kept, b, m, trace := ResolveValue(cells, t, w, merge, i, c, text, live, past);
    ResolvesMore(t, w, merge, c, text, live, past, trace, cells[..], RankAt(t, c, now, i) + 1, rank, ok);
    DeeperValue(t, w, merge, now, i, RankAt(t, c, now, i), rank - 1);
  }

  lemma NothingDown(t: Tables, w: Priorities, merge: Merger, cells: Cells, i: Ref, rank: nat)
    ensures ResolvedDown(cells, i, 0) && StatesOn(t, w, merge, cells, i, 0, rank) == Known(cells)
  {
  }

  lemma KnownState(t: Tables, w: Priorities, merge: Merger, cells: Cells, i: Ref, rank: nat)
    requires HasValue(cells, i)
    ensures StateOn(t, w, merge, cells, i, rank) == Known(cells)
  {
  }

  /** `yyresolveAction`, with the free semantic action. */
  method ResolveAction(cells: array<Cell>, t: Tables, w: Priorities, merge: Merger, k: Ref,
                       ghost c: Certificate, ghost text: seq<nat>, ghost live: set<Ref>, ghost past: seq<Cells>)
    returns (ok: bool, v: Tree, ghost trace: seq<Cells>)
    requires Loose(t, c, text, cells[..], live) && !Cyclic(c.g) && MergeSound(c.g, merge)
    requires |w.dprec| == |w.merger| == |t.r2|
    requires k in live && IsOption(cells[..], k) && past != [] && Run(t, w, merge, past) && cells[..] == Reached(past)
    modifies cells
    ensures trace != []
    ensures Resolves(t, w, merge, c, text, live, past, trace, cells[..], RankAt(t, c, old(cells[..]), k), ok)
    ensures ok ==> Spanned(t, c, text, OptionSig(t, old(cells[..]), k), v) && Acts(t, cells[..], k, v)
    ensures !ok ==> StuckRhs(t, w, Reached(trace), k)
    ensures Ended(ok, cells[..]) == ActionOn(t, w, merge, old(cells[..]), k, RankAt(t, c, old(cells[..]), k))
    ensures ok ==> v == ActionOf(t, cells[..], k)
    decreases RankAt(t, c, cells[..], k), 1, 0
  {
    hide Loose, Cyclic, MergeSound, Kept, BelowRank, ResolvedDown, RankAt, Spanned, OptionFits, OptionSig, ValuesDown,
      Stems, LinkOk, Run, Resolves, StuckDown, StatesOn;
    ghost var before := cells[..];
    ghost var rank := RankAt(t, c, before, k);
    LiveFits(t, c, text, before, live, k);
    RhsBelow(t, c, text, before, k);
    var n := t.r2[cells[k].rule];
    v := Leaf(0);
    ok, trace := ResolveStates(cells, t, w, merge, cells[k].rhs, n, c, text, live, rank, past);
    if ok {
      ghost var now := cells[..];
      ResolvesParts(t, w, merge, c, text, live, past, trace, now, rank);
      KeptSigs(t, c, before, now, rank, k);
      LiveFits(t, c, text, now, live, k);
      ActionValue(t, c, text, now, k);
      v := Node(cells[k].rule, ValuesDown(cells[..], cells[k].rhs, n));
    } else {
      FailedFrame(t, w, merge, c, text, live, past, trace, cells[..], rank, k);
    }
  }

  /** Where a part of the resolution has failed, frames are as before. */
  lemma FailedFrame(t: Tables, w: Priorities, merge: Merger, c: Certificate, text: seq<nat>, live: set<Ref>,
                    past: seq<Cells>, trace: seq<Cells>, cells: Cells, rank: nat, x: Ref)
    requires past != [] && Resolves(t, w, merge, c, text, live, past, trace, cells, rank, false)
    requires 0 <= x < |Reached(past)|
    ensures trace != [] && |Reached(trace)| == |Reached(past)| && CellFrame(Reached(past)[x], Reached(trace)[x])
    ensures IsState(Reached(past), x) ==> IsState(Reached(trace), x) && Reached(trace)[x].pred == Reached(past)[x].pred
  {
    hide Loose, Run, RankAt, Cleared;
  }

  /** One of the remaining options of the best one's precedence cannot be evaluated. */
  ghost predicate StuckOther(t: Tables, w: Priorities, cells: Cells, rs: seq<nat>, kept: seq<Ref>, b: nat) {
    && b < |rs| == |kept| && (forall i | 0 <= i < |rs| :: rs[i] < |w.dprec|)
    && exists k :: k in SamePrecedence(w, rs, kept, b, |kept|) && StuckRhs(t, w, cells, k)
  }

  /** The loop of `yyresolveValue` over the remaining options of the same precedence. */
  method MergeOthers(cells: array<Cell>, t: Tables, w: Priorities, merge: Merger, best: Ref, first: Tree,
                     ghost c: Certificate, ghost text: seq<nat>, ghost live: set<Ref>, ghost sig: Signature,
                     ghost kept: seq<Ref>, ghost b: nat, ghost m: bool, ghost head: Ref, ghost past: seq<Cells>)
    returns (ok: bool, v: Tree, ghost trace: seq<Cells>)
    requires Loose(t, c, text, cells[..], live) && !Cyclic(c.g) && MergeSound(c.g, merge)
    requires |w.dprec| == |w.merger| == |t.r2|
    requires OnChain(t, cells[..], live, kept, sig) && b < |kept| && kept[b] == best
    requires Picks(w, RulesOf(cells[..], kept), b, m)
    requires Chained(cells[..], head) && ChainOf(cells[..], head) == kept
    requires Spanned(t, c, text, sig, first) && IsOption(cells[..], best) && Acts(t, cells[..], best, first)
    requires past != [] && Run(t, w, merge, past) && cells[..] == Reached(past)
    modifies cells
    ensures trace != [] && Resolves(t, w, merge, c, text, live, past, trace, cells[..], RankOf(t, c, sig), ok)
    ensures ok ==>
      Spanned(t, c, text, sig, v) && ValueOf(t, w, merge, trace, RulesOf(old(cells[..]), kept), kept, b, m, v)
    ensures !ok ==> StuckOther(t, w, Reached(trace), RulesOf(old(cells[..]), kept), kept, b)
    ensures old(cells[best]).rule < |w.dprec|
    ensures (Ended(ok, cells[..]), v) == OthersOn(t, w, merge, old(cells[..]), old(cells[best]).next,
      w.dprec[old(cells[best]).rule], first, RankOf(t, c, sig))
    decreases RankOf(t, c, sig), 2, 0
  {
    hide Loose, Cyclic, MergeSound, Kept, RankAt, RankOf, Spanned, OptionFits, OptionSig, Stems, Walking, Picks,
      ChainOf, Chained, RulesOf, OnChain, ValueOf, Acts, Run, Resolves, StuckRhs, OthersOn, ActionOn, ActionOf;
    ghost var before := cells[..];
    ghost var rank := RankOf(t, c, sig);
    ghost var rs := RulesOf(before, kept);
    ghost var vs, arenas := [first], [before];
    ghost var j: nat := b + 1;
    v, ok, trace := first, true, past;
    ResolvesSelf(t, w, merge, c, text, live, past, rank);
    ResolvesParts(t, w, merge, c, text, live, past, past, before, rank);
    ChainFacts(t, c, before, before, live, kept, sig, rank);
    ChainMembers(t, before, live, kept, sig);
    ChainRules(before, before, kept) by { SelfFrame(before); }
    WalkStart(t, w, merge, past, before, rs, kept, b, m, head, first);
    PicksRules(w, rs, b, m);
    var prec := w.dprec[cells[best].rule];
    ghost var n := w.merger[rs[b]];
    var p := cells[best].next;
    while p != NULL
      invariant trace != [] && Resolves(t, w, merge, c, text, live, past, trace, cells[..], rank, true)
      invariant Walking(t, w, merge, trace, cells[..], rs, kept, b, m, j, p, n, v, vs, arenas)
      invariant Spanned(t, c, text, sig, v)
      invariant OthersOn(t, w, merge, before, before[best].next, prec, first, rank) ==
        OthersOn(t, w, merge, cells[..], p, prec, v, rank)
      invariant ok && b < j
      decreases p
    {
      ghost var now, mid := cells[..], trace;
      ResolvesParts(t, w, merge, c, text, live, past, mid, now, rank);
      ChainFacts(t, c, before, now, live, kept, sig, rank);
      ChainMembers(t, now, live, kept, sig);
      ChainRules(before, now, kept) by { KeptKinds(t, c, before, now, rank); }
      WalkAt(t, w, merge, mid, now, rs, kept, b, m, j, p, n, v, vs, arenas);
      OthersStep(t, w, merge, now, p, prec, v, rank);
      if w.dprec[cells[p].rule] == prec {
        var other;
        ok, other, trace := ResolveAction(cells, t, w, merge, p, c, text, live, mid);
        ResolvesTrans(t, w, merge, c, text, live, past, mid, now, trace, cells[..], rank, ok);
        if !ok {
          PrecedenceHas(w, rs, kept, b, j, |kept|);
          return;
        }
        ResolvesParts(t, w, merge, c, text, live, mid, trace, cells[..], rank);
        KeptSigs(t, c, now, cells[..], rank, p);
        WalkKept(t, c, w, merge, mid, trace, now, cells[..], rs, kept, b, m, j, p, n, v, vs, arenas, rank);
        WalkMerge(t, w, merge, trace, cells[..], rs, kept, b, m, j, p, n, v, vs, arenas, other);
        Merged(t, c, text, merge, sig, n, v, other);
        v := merge(w.merger[cells[p].rule], v, other);
        vs, arenas := vs + [other], arenas + [cells[..]];
      } else {
        WalkPast(t, w, merge, mid, now, rs, kept, b, m, j, p, n, v, vs, arenas);
      }
      p := cells[p].next;
      j := j + 1;
    }
    NoOthersLeft(t, w, merge, cells[..], p, prec, v, rank);
    WalkEnd(t, w, merge, trace, cells[..], rs, kept, b, m, j, p, n, v, vs, arenas);
  }

  lemma NoOthersLeft(t: Tables, w: Priorities, merge: Merger, cells: Cells, p: Ref, prec: nat, v: Tree, rank: nat)
    requires p == NULL
    ensures OthersOn(t, w, merge, cells, p, prec, v, rank) == (Known(cells), v)
  {
  }

  lemma FrameTrans(x: Cells, y: Cells, z: Cells)
    requires SameFrame(x, y) && SameFrame(y, z)
    ensures SameFrame(x, z)
  {
    forall i | 0 <= i < |x|
      ensures CellFrame(x[i], z[i])
    {
      assert CellFrame(x[i], y[i]) && CellFrame(y[i], z[i]);
    }
  }

  lemma KeptFrame(t: Tables, c: Certificate, a: Cells, b: Cells, rank: nat)
    requires Kept(t, c, a, b, rank)
    ensures SameFrame(a, b)
  {
  }

  lemma FrameState(a: Cells, b: Cells, i: Ref)
    requires SameFrame(a, b) && IsState(a, i)
    ensures IsState(b, i)
  {
    assert CellFrame(a[i], b[i]);
  }

  lemma SelfFrame(cells: Cells)
    ensures SameFrame(cells, cells)
  {
  }

  lemma ChainMembers(t: Tables, cells: Cells, live: set<Ref>, kept: seq<Ref>, sig: Signature)
    requires OnChain(t, cells, live, kept, sig)
    ensures forall x | x in kept :: x in live && IsOption(cells, x) && OptionSig(t, cells, x) == sig
  {
  }

  /** The selection among the options of state `i` keeps `kept`, some duplicates aside, and leads to the value `v`. */
  ghost predicate Settles(t: Tables, w: Priorities, merge: Merger, trace: seq<Cells>, cells: Cells, i: Ref,
                          kept: seq<Ref>, b: nat, m: bool, v: Tree) {
    && IsState(cells, i) && cells[i].sem.Chain?
    && ChoiceOf(t, w, cells, i) == Chosen(kept, b, m)
    && ValueOf(t, w, merge, trace, RulesOf(cells, kept), kept, b, m, v)
    && var all := ChainOf(cells, cells[i].sem.first);
    && (forall x | x in kept :: x in all)
    && (forall x | x in all :: x in kept || Duplicate(t, cells, kept, x))
  }

  /** `yyresolveValue`. */
  method ResolveValue(cells: array<Cell>, t: Tables, w: Priorities, merge: Merger, i: Ref,
                      ghost c: Certificate, ghost text: seq<nat>, ghost live: set<Ref>, ghost past: seq<Cells>)
    returns (ok: bool, ghost kept: seq<Ref>, ghost b: nat, ghost m: bool, ghost trace: seq<Cells>)
    requires Loose(t, c, text, cells[..], live) && !Cyclic(c.g) && MergeSound(c.g, merge)
    requires |w.dprec| == |w.merger| == |t.r2|
    requires IsState(cells[..], i) && i > 0 && cells[i].sem.Chain?
    requires past != [] && Run(t, w, merge, past) && cells[..] == Reached(past)
    modifies cells
    ensures trace != []
    ensures Resolves(t, w, merge, c, text, live, past, trace, cells[..], RankAt(t, c, old(cells[..]), i) + 1, ok)
    ensures ok ==>
      HasValue(cells[..], i) && Settles(t, w, merge, trace, old(cells[..]), i, kept, b, m, cells[i].sem.tree)
    ensures !ok ==> Stuck(t, w, Reached(trace), i)
    ensures Ended(ok, cells[..]) == ValueOn(t, w, merge, old(cells[..]), i, RankAt(t, c, old(cells[..]), i))
    decreases RankAt(t, c, cells[..], i), 3, 0
  {
    hide Loose, Cyclic, MergeSound, Kept, RankAt, RankOf, Spanned, OptionFits, OptionSig, StateSig, Stems, Picks,
      ChainOf, Chained, RulesOf, OnChain, ValueOf, Duplicate, Run, Resolves, DropTrace, ChoiceOf, Acts, Stuck, StuckRhs,
      StuckOther, ValueOn, ChosenOn, ActionOn, OthersOn, ActionOf, Narrowed;
    ghost var before := cells[..];
    ghost var rank := RankAt(t, c, before, i);
    ghost var sig := StateSig(t, before, i);
    var ambiguous, merging;
    var chosen: Ref;
    ghost var drops;
    ambiguous, chosen, merging, kept, b, drops := Choose(cells, t, w, i, c, text, live);
    m := merging;
    ghost var now := cells[..];
    ValueStep(t, w, merge, before, i, rank);
    trace := past + drops[1..];
    RunDrops(t, w, merge, past, now, |drops| - 1, drops);
    KeptFrame(t, c, before, now, rank + 1);
    if ambiguous {
      ChoseNothing(t, w, merge, c, text, live, past, trace, now, i, rank + 1);
      ClashStuck(t, w, now, i);
      return false, kept, b, m, trace;
    }
    ChoseOne(t, w, merge, c, text, live, past, trace, now, rank + 1);
    ghost var dropped := trace;
    ChosenFacts(t, c, text, before, now, live, i, kept);
    var v: Tree;
    assert chosen in kept;
    ok, v, trace := ResolveAction(cells, t, w, merge, chosen, c, text, live, dropped);
    ghost var acted := trace;
    ghost var acting := Ended(ok, cells[..]);
    if ok {
      ghost var mid := cells[..];
      ResolvesParts(t, w, merge, c, text, live, dropped, acted, mid, rank);
      ActedFacts(t, c, now, mid, live, kept, sig, rank, now[i].sem.first);
      PicksRules(w, RulesOf(mid, kept), b, m);
      assert mid[chosen].rule == RulesOf(mid, kept)[b];
      if merging {
        ok, v, trace := MergeOthers(cells, t, w, merge, chosen, v, c, text, live, sig, kept, b, merging,
          now[i].sem.first, acted);
        ResolvesTrans(t, w, merge, c, text, live, dropped, acted, mid, trace, cells[..], rank, ok);
      } else {
        AloneValue(t, w, merge, acted, mid, RulesOf(before, kept), kept, b, v);
      }
    }
    ghost var after := cells[..];
    ChosenEnds(t, w, merge, now, i, chosen, merging, rank, acting, Ended(ok, after), v);
    ResolvesMore(t, w, merge, c, text, live, dropped, trace, after, rank, rank + 1, ok);
    ResolvesTrans(t, w, merge, c, text, live, past, dropped, now, trace, after, rank + 1, ok);
    if ok {
      ResolvesParts(t, w, merge, c, text, live, dropped, trace, after, rank);
      StillChosen(t, w, c, now, after, live, i, kept, sig, rank);
      SetValue(t, w, merge, c, text, live, past, trace, before, after, i, kept, b, m, v, rank);
      cells[i] := cells[i].(sem := Val(v));
      assert cells[..] == after[i := after[i].(sem := Val(v))];
      trace := trace + [cells[..]];
    } else {
      StuckHere(t, w, merge, c, text, live, dropped, trace, now, after, i, kept, b, m, sig, rank);
      ClearOptions(t, w, merge, c, text, live, past, dropped, trace, now, after, i, rank);
      cells[i] := cells[i].(sem := Chain(NULL));
      assert cells[..] == after[i := after[i].(sem := Chain(NULL))];
    }
  }

  /** Where the selection fails. */
  lemma ChoseNothing(t: Tables, w: Priorities, merge: Merger, c: Certificate, text: seq<nat>, live: set<Ref>,
                     past: seq<Cells>, trace: seq<Cells>, now: Cells, i: Ref, rank: nat)
    requires past != [] && past <= trace && Run(t, w, merge, trace) && Reached(trace) == now
    requires Loose(t, c, text, now, live) && Kept(t, c, Reached(past), now, rank)
    ensures Resolves(t, w, merge, c, text, live, past, trace, now, rank, false)
  {
    hide Loose, Kept, Run;
  }

  lemma ChoseOne(t: Tables, w: Priorities, merge: Merger, c: Certificate, text: seq<nat>, live: set<Ref>,
                 past: seq<Cells>, trace: seq<Cells>, now: Cells, rank: nat)
    requires past != [] && past <= trace && Run(t, w, merge, trace) && Reached(trace) == now
    requires Loose(t, c, text, now, live) && Kept(t, c, Reached(past), now, rank)
    ensures Resolves(t, w, merge, c, text, live, past, trace, now, rank, true)
  {
    hide Loose, Kept, Run;
  }

  /** The step that sets the value. */
  lemma SetValue(t: Tables, w: Priorities, merge: Merger, c: Certificate, text: seq<nat>, live: set<Ref>,
                 past: seq<Cells>, trace: seq<Cells>, before: Cells, after: Cells, i: Ref, kept: seq<Ref>, b: nat,
                 m: bool, v: Tree, rank: nat)
    requires past != [] && Reached(past) == before && IsState(before, i) && i > 0 && rank == RankAt(t, c, before, i)
    requires Resolves(t, w, merge, c, text, live, past, trace, after, rank + 1, true)
    requires Spanned(t, c, text, StateSig(t, before, i), v)
    requires ValueOf(t, w, merge, trace, RulesOf(after, kept), kept, b, m, v)
    requires IsState(after, i) && after[i].sem.Chain? && ChoiceOf(t, w, after, i) == Chosen(kept, b, m)
    requires ChainOf(after, after[i].sem.first) == kept
    ensures var next := after[i := after[i].(sem := Val(v))];
      && Resolves(t, w, merge, c, text, live, past, trace + [next], next, rank + 1, true)
      && ValueOf(t, w, merge, trace + [next], RulesOf(after, kept), kept, b, m, v)
  {
    hide Loose, Kept, RankAt, Run, StateSig, Spanned, ValueOf, RulesOf, ChainOf, ChoiceOf;
    ResolvesParts(t, w, merge, c, text, live, past, trace, after, rank + 1);
    KeptSigs(t, c, before, after, rank + 1, i);
    ValueSet(t, c, text, after, live, i, v);
    var next := after[i := after[i].(sem := Val(v))];
    KeptTrans(t, c, before, after, next, rank + 1, rank + 1);
    assert Sets(t, w, merge, trace, next, i, b, m, v);
    RunMore(t, w, merge, trace, next);
    ValueOfMore(t, w, merge, trace, trace + [next], RulesOf(after, kept), kept, b, m, v);
  }

  lemma ValueOfMore(t: Tables, w: Priorities, merge: Merger, past: seq<Cells>, more: seq<Cells>, rs: seq<nat>,
                    kept: seq<Ref>, b: nat, m: bool, v: Tree)
    requires ValueOf(t, w, merge, past, rs, kept, b, m, v) && past <= more
    ensures ValueOf(t, w, merge, more, rs, kept, b, m, v)
  {
    hide Acted, Picks, Fold, SamePrecedence;
    var vs, arenas :| ValueBy(t, w, merge, past, rs, kept, b, m, v, vs, arenas);
    PicksRules(w, rs, b, m);
    ActedMore(t, past, more, [kept[b]] + SamePrecedence(w, rs, kept, b, |kept|), vs, arenas);
    assert ValueBy(t, w, merge, more, rs, kept, b, m, v, vs, arenas);
  }

  /** The options of the state whose turn it is are still those selected. */
  lemma StillChosen(t: Tables, w: Priorities, c: Certificate, now: Cells, after: Cells, live: set<Ref>, i: Ref,
                    kept: seq<Ref>, sig: Signature, rank: nat)
    requires IsState(now, i) && now[i].sem.Chain? && Kept(t, c, now, after, rank)
    requires RankAt(t, c, now, i) == rank == RankOf(t, c, sig)
    requires OnChain(t, now, live, kept, sig) && Chained(now, now[i].sem.first)
    requires ChainOf(now, now[i].sem.first) == kept
    ensures after[i] == now[i] && ChainOf(after, after[i].sem.first) == kept
    ensures RulesOf(after, kept) == RulesOf(now, kept)
    ensures ChoiceOf(t, w, after, i) == ChoiceOf(t, w, now, i)
  {
    hide Kept, RankAt, RankOf, OnChain, Chained, ChainOf, RulesOf, ChoiceFrom;
    KeptSigs(t, c, now, after, rank, i);
    ActedFacts(t, c, now, after, live, kept, sig, rank, now[i].sem.first);
    KeptFrame(t, c, now, after, rank);
    if kept != [] { ChoiceFrame(t, w, now, after, [kept[0]], 0, false, kept[1..]); }
  }

  /** The state is stuck where an option selected is. */
  lemma StuckHere(t: Tables, w: Priorities, merge: Merger, c: Certificate, text: seq<nat>, live: set<Ref>,
                  dropped: seq<Cells>, trace: seq<Cells>, now: Cells, after: Cells, i: Ref, kept: seq<Ref>, b: nat,
                  m: bool, sig: Signature, rank: nat)
    requires dropped != [] && Reached(dropped) == now
    requires Resolves(t, w, merge, c, text, live, dropped, trace, after, rank, false)
    requires IsState(now, i) && now[i].sem.Chain? && RankAt(t, c, now, i) == rank == RankOf(t, c, sig)
    requires OnChain(t, now, live, kept, sig) && Chained(now, now[i].sem.first)
    requires ChainOf(now, now[i].sem.first) == kept
    requires ChoiceOf(t, w, now, i) == Chosen(kept, b, m) && Picks(w, RulesOf(now, kept), b, m) && b < |kept|
    requires StuckRhs(t, w, Reached(trace), kept[b]) || StuckOther(t, w, Reached(trace), RulesOf(now, kept), kept, b)
    ensures Stuck(t, w, Reached(trace), i)
  {
    hide Loose, Run, Kept, RankAt, RankOf, OnChain, Chained, ChainOf, ChoiceOf, Picks, RulesOf, Cleared, StuckRhs,
      Stuck;
    var a := Reached(trace);
    StillChosen(t, w, c, now, a, live, i, kept, sig, rank);
    KeptFrame(t, c, now, a, rank);
    FrameState(now, a, i);
    PicksRules(w, RulesOf(now, kept), b, m);
    var all := [kept[b]] + SamePrecedence(w, RulesOf(now, kept), kept, b, |kept|);
    var k :| k in all && StuckRhs(t, w, a, k) by {
      if StuckRhs(t, w, a, kept[b]) { assert kept[b] in all; }
    }
    assert Taken(t, w, a, i, k);
    CallStuck(t, w, a, i, k);
  }

  /** On failure the state loses its options. */
  lemma ClearOptions(t: Tables, w: Priorities, merge: Merger, c: Certificate, text: seq<nat>, live: set<Ref>,
                     past: seq<Cells>, dropped: seq<Cells>, trace: seq<Cells>, now: Cells, after: Cells, i: Ref,
                     rank: nat)
    requires dropped != [] && Reached(dropped) == now && IsState(now, i) && now[i].sem.Chain?
    requires RankAt(t, c, now, i) == rank
    requires Resolves(t, w, merge, c, text, live, dropped, trace, after, rank, false)
    requires past != [] && Resolves(t, w, merge, c, text, live, past, trace, after, rank + 1, false)
    ensures IsState(after, i)
    ensures Resolves(t, w, merge, c, text, live, past, trace, after[i := after[i].(sem := Chain(NULL))],
      rank + 1, false)
  {
    hide Loose, Run, RankAt;
    assert Reached(trace)[i] == now[i];
  }

  /** The chain after the selection. */
  lemma ChosenFacts(t: Tables, c: Certificate, text: seq<nat>, before: Cells, now: Cells, live: set<Ref>, i: Ref,
                    kept: seq<Ref>)
    requires IsState(now, i) && now[i].sem.Chain? && IsState(before, i)
    requires Loose(t, c, text, now, live) && Kept(t, c, before, now, RankAt(t, c, before, i) + 1)
    requires ChainOf(now, now[i].sem.first) == kept
    ensures OnChain(t, now, live, kept, StateSig(t, before, i)) && Chained(now, now[i].sem.first)
    ensures forall x | x in kept :: x in live && IsOption(now, x) && OptionSig(t, now, x) == StateSig(t, before, i)
    ensures forall x | x in kept ::
      RankAt(t, c, now, x) == RankAt(t, c, before, i) == RankOf(t, c, StateSig(t, before, i))
    ensures RankAt(t, c, now, i) == RankAt(t, c, before, i) == RankOf(t, c, StateSig(t, before, i))
    ensures RulesOf(before, kept) == RulesOf(now, kept)
    ensures forall j | 0 <= j < |kept| && IsOption(now, kept[j]) :: RulesOf(now, kept)[j] == now[kept[j]].rule
  {
    hide Loose, Kept, Stems, OptionSig, StateSig, Chained, ChainOf, RankOf, RulesOf;
    KeptSigs(t, c, before, now, RankAt(t, c, before, i) + 1, i);
    HeadChain(t, c, text, now, live, i);
    ChainRules(before, now, kept);
  }

  lemma ActedFacts(t: Tables, c: Certificate, now: Cells, mid: Cells, live: set<Ref>, kept: seq<Ref>, sig: Signature,
                   rank: nat, head: Ref)
    requires OnChain(t, now, live, kept, sig) && Kept(t, c, now, mid, rank) && rank == RankOf(t, c, sig)
    requires Chained(now, head) && ChainOf(now, head) == kept
    ensures OnChain(t, mid, live, kept, sig) && Chained(mid, head) && ChainOf(mid, head) == kept
    ensures RulesOf(mid, kept) == RulesOf(now, kept)
    ensures forall x | x in kept :: IsOption(mid, x) && mid[x] == now[x]
  {
    hide Kept, OptionSig, Chained, ChainOf, RankOf, RulesOf;
    ChainFacts(t, c, now, mid, live, kept, sig, rank);
    forall x | x in kept
      ensures mid[x] == now[x]
    {
      KeptSigs(t, c, now, mid, rank, x);
    }
    KeptKinds(t, c, now, mid, rank);
    ChainKept(now, mid, head);
    ChainRules(now, mid, kept);
  }
}
