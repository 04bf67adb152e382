/** What the resolution of deferred values may do: the arenas that it goes through, step by step. */
module GlrTrace {
  import opened Grammar
  import opened LrTables
  import opened GlrForest
  import opened GlrOptions
  import opened GlrLoose
  import opened GlrRank
  import opened GlrResolve
  import opened GlrChoice

  /** `yyuserMerge`, given the number of the merger. */
  type Merger = (nat, Tree, Tree) -> Tree

  /** The merge of `vs`, from left to right. */
  function Fold(merge: Merger, n: nat, vs: seq<Tree>): Tree
    requires vs != []
  {
    if |vs| == 1 then vs[0] else merge(n, Fold(merge, n, vs[..|vs| - 1]), vs[|vs| - 1])
  }

  lemma FoldNext(merge: Merger, n: nat, vs: seq<Tree>, v: Tree)
    requires vs != []
    ensures Fold(merge, n, vs + [v]) == merge(n, Fold(merge, n, vs), v)
  {
    assert (vs + [v])[..|vs|] == vs;
  }

  /** Those of the options number `b + 1` to `j - 1` that have the precedence of number `b`. */
  function SamePrecedence(w: Priorities, rs: seq<nat>, ks: seq<Ref>, b: nat, j: nat): seq<Ref>
    requires b < |rs| == |ks| && j <= |ks| && forall i | 0 <= i < |rs| :: rs[i] < |w.dprec|
  {
    if j <= b + 1 then []
    else SamePrecedence(w, rs, ks, b, j - 1) + (if w.dprec[rs[j - 1]] == w.dprec[rs[b]] then [ks[j - 1]] else [])
  }

  /** The values of the top `n` states. */
  function ValuesDown(cells: Cells, i: Ref, n: nat): seq<Tree>
    decreases n
  {
    if n == 0 || !IsState(cells, i) then []
    else ValuesDown(cells, cells[i].pred, n - 1) + [if cells[i].sem.Val? then cells[i].sem.tree else Leaf(0)]
  }

  ghost predicate ResolvedDown(cells: Cells, i: Ref, n: nat) {
    forall d | 0 <= d < n :: HasValue(cells, Climb(cells, i, d))
  }

  predicate HasValue(cells: Cells, s: Ref) {
    IsState(cells, s) && cells[s].sem.Val?
  }

  /** The action of option `k`: its rule applied to the values that its right-hand side has in `cells`. */
  ghost predicate Acts(t: Tables, cells: Cells, k: Ref, v: Tree) {
    && IsOption(cells, k) && cells[k].rule < |t.r2|
    && ResolvedDown(cells, cells[k].rhs, t.r2[cells[k].rule])
    && v == Node(cells[k].rule, ValuesDown(cells, cells[k].rhs, t.r2[cells[k].rule]))
  }

  /** Value number `j` is that of the action of option `ks[j]` in `arenas[j]`, which is one of `past`. */
  ghost predicate Acted(t: Tables, past: seq<Cells>, ks: seq<Ref>, vs: seq<Tree>, arenas: seq<Cells>) {
    && |ks| == |vs| == |arenas|
    && forall j | 0 <= j < |ks| :: arenas[j] in past && Acts(t, arenas[j], ks[j], vs[j])
  }

  lemma ActedMore(t: Tables, past: seq<Cells>, more: seq<Cells>, ks: seq<Ref>, vs: seq<Tree>, arenas: seq<Cells>)
    requires Acted(t, past, ks, vs, arenas) && past <= more
    ensures Acted(t, more, ks, vs, arenas)
  {
    hide Acts;
    assert forall a | a in past :: a in more;
  }

  lemma ActedNext(t: Tables, past: seq<Cells>, ks: seq<Ref>, vs: seq<Tree>, arenas: seq<Cells>, k: Ref, v: Tree,
                  a: Cells)
    requires Acted(t, past, ks, vs, arenas) && a in past && Acts(t, a, k, v)
    ensures Acted(t, past, ks + [k], vs + [v], arenas + [a])
  {
    hide Acts;
  }

  /** The value that the selection of option number `b` leads to: the merge of the values of the actions of
      that option and of all others of its precedence, in order, under the merger that they share. */
  ghost predicate ValueBy(t: Tables, w: Priorities, merge: Merger, past: seq<Cells>, rs: seq<nat>, kept: seq<Ref>,
                          b: nat, m: bool, v: Tree, vs: seq<Tree>, arenas: seq<Cells>) {
    && |rs| == |kept| && b < |kept| && Picks(w, rs, b, m)
    && vs != [] && v == Fold(merge, w.merger[rs[b]], vs)
    && Acted(t, past, [kept[b]] + SamePrecedence(w, rs, kept, b, |kept|), vs, arenas)
  }

  ghost predicate ValueOf(t: Tables, w: Priorities, merge: Merger, past: seq<Cells>, rs: seq<nat>, kept: seq<Ref>,
                          b: nat, m: bool, v: Tree) {
    exists vs, arenas :: ValueBy(t, w, merge, past, rs, kept, b, m, v, vs, arenas)
  }

  /** State `i` gets the value that the selection among its options leads to. */
  ghost predicate Sets(t: Tables, w: Priorities, merge: Merger, past: seq<Cells>, next: Cells, i: Ref, b: nat, m: bool,
                       v: Tree)
    requires past != []
  {
    var a := past[|past| - 1];
    && IsState(a, i) && a[i].sem.Chain? && next == a[i := a[i].(sem := Val(v))]
    && var kept := ChainOf(a, a[i].sem.first);
    && ChoiceOf(t, w, a, i) == Chosen(kept, b, m)
    && ValueOf(t, w, merge, past, RulesOf(a, kept), kept, b, m, v)
  }

  /** One step: the next option in the selection at some state is the same as the best one, merged into it and
      dropped, or a state gets its value. */
  ghost predicate StepTo(t: Tables, w: Priorities, merge: Merger, past: seq<Cells>, next: Cells)
    requires past != []
  {
    Drops(t, w, past[|past| - 1], next) || exists i, b, m, v :: Sets(t, w, merge, past, next, i, b, m, v)
  }

  ghost predicate Run(t: Tables, w: Priorities, merge: Merger, trace: seq<Cells>) {
    trace != [] && forall k: nat | 0 < k < |trace| :: StepTo(t, w, merge, trace[..k], trace[k])
  }

  /** Where a run has got to. */
  function Reached(trace: seq<Cells>): Cells
    requires trace != []
  {
    trace[|trace| - 1]
  }

  lemma RunMore(t: Tables, w: Priorities, merge: Merger, trace: seq<Cells>, next: Cells)
    requires Run(t, w, merge, trace) && StepTo(t, w, merge, trace, next)
    ensures Run(t, w, merge, trace + [next]) && trace <= trace + [next] && Reached(trace + [next]) == next
  {
    hide StepTo;
    forall k: nat | 0 < k <= |trace|
      ensures StepTo(t, w, merge, (trace + [next])[..k], (trace + [next])[k])
    {
      if k == |trace| {
        assert (trace + [next])[..k] == trace;
      } else {
        assert (trace + [next])[..k] == trace[..k];
      }
    }
  }

  /** The steps of a selection continue a run. */
  lemma {:induction false} RunDrops(t: Tables, w: Priorities, merge: Merger, past: seq<Cells>, now: Cells, n: nat,
                                    drops: seq<Cells>)
    requires Run(t, w, merge, past) && DropTrace(t, w, Reached(past), now, n, drops)
    ensures Run(t, w, merge, past + drops[1..]) && past <= past + drops[1..] && Reached(past + drops[1..]) == now
    decreases n
  {
    hide Drops, Run;
    if n == 0 {
      assert past + drops[1..] == past;
    } else {
      var fewer := drops[..n];
      forall i: nat | i < n - 1
        ensures DropAt(t, w, fewer, i)
      {
        assert DropAt(t, w, drops, i);
      }
      RunDrops(t, w, merge, past, fewer[n - 1], n - 1, fewer);
      assert DropAt(t, w, drops, n - 1);
      RunMore(t, w, merge, past + fewer[1..], now);
      assert past + drops[1..] == (past + fewer[1..]) + [now];
    }
  }

  /** Two different options of some state have no preference between them. */
  ghost predicate ClashAt(t: Tables, w: Priorities, cells: Cells, s: Ref) {
    IsState(cells, s) && cells[s].sem.Chain? && ChoiceOf(t, w, cells, s).Clash?
  }

  /** The selection among the options of state `i` succeeds and calls for the action of option `k`. */
  ghost predicate Taken(t: Tables, w: Priorities, cells: Cells, i: Ref, k: Ref) {
    && IsState(cells, i) && cells[i].sem.Chain?
    && match ChoiceOf(t, w, cells, i)
       case Clash(_, _) => false
       case Chosen(kept, b, m) =>
         && Picks(w, RulesOf(cells, kept), b, m)
         && k in [kept[b]] + SamePrecedence(w, RulesOf(cells, kept), kept, b, |kept|)
  }

  /** State `j` is number `d` of the right-hand side of option `k`, from the top. */
  ghost predicate OnRhs(t: Tables, cells: Cells, k: Ref, d: nat, j: Ref) {
    IsOption(cells, k) && cells[k].rule < |t.r2| && d < t.r2[cells[k].rule] && j == Climb(cells, cells[k].rhs, d)
  }

  /** The value of state `i` is computed from that of state `j`. */
  ghost predicate Calls(t: Tables, w: Priorities, cells: Cells, i: Ref, j: Ref) {
    exists k, d: nat :: Taken(t, w, cells, i, k) && OnRhs(t, cells, k, d, j)
  }

  /** The value of state `i` calls for that of a state, at the end of the path, whose selection fails. */
  ghost predicate StuckBy(t: Tables, w: Priorities, cells: Cells, i: Ref, path: seq<Ref>) {
    && path != [] && path[0] == i && ClashAt(t, w, cells, path[|path| - 1])
    && forall m: nat | m + 1 < |path| :: Calls(t, w, cells, path[m], path[m + 1])
  }

  ghost predicate Stuck(t: Tables, w: Priorities, cells: Cells, i: Ref) {
    exists path :: StuckBy(t, w, cells, i, path)
  }

  /** That is so for one of the `n` states from `i` down. */
  ghost predicate StuckDown(t: Tables, w: Priorities, cells: Cells, i: Ref, n: nat) {
    exists d: nat :: d < n && Stuck(t, w, cells, Climb(cells, i, d))
  }

  /** That is so for a state of the right-hand side of option `k`. */
  ghost predicate StuckRhs(t: Tables, w: Priorities, cells: Cells, k: Ref) {
    IsOption(cells, k) && cells[k].rule < |t.r2| && StuckDown(t, w, cells, cells[k].rhs, t.r2[cells[k].rule])
  }

  lemma ClashStuck(t: Tables, w: Priorities, cells: Cells, i: Ref)
    requires ClashAt(t, w, cells, i)
    ensures Stuck(t, w, cells, i)
  {
    hide ClashAt;
    assert StuckBy(t, w, cells, i, [i]);
  }

  lemma CallStuck(t: Tables, w: Priorities, cells: Cells, i: Ref, k: Ref)
    requires Taken(t, w, cells, i, k) && StuckRhs(t, w, cells, k)
    ensures Stuck(t, w, cells, i)
  {
    hide Taken, ClashAt;
    var d: nat :| d < t.r2[cells[k].rule] && Stuck(t, w, cells, Climb(cells, cells[k].rhs, d));
    var j := Climb(cells, cells[k].rhs, d);
    var path :| StuckBy(t, w, cells, j, path);
    assert OnRhs(t, cells, k, d, j);
    assert Calls(t, w, cells, i, j);
    PathStuck(t, w, cells, i, j, path);
  }

  lemma PathStuck(t: Tables, w: Priorities, cells: Cells, i: Ref, j: Ref, path: seq<Ref>)
    requires Calls(t, w, cells, i, j) && StuckBy(t, w, cells, j, path)
    ensures Stuck(t, w, cells, i)
  {
    hide Calls, ClashAt;
    var longer := [i] + path;
    forall m: nat | m + 1 < |longer|
      ensures Calls(t, w, cells, longer[m], longer[m + 1])
    {
      if m > 0 { assert longer[m] == path[m - 1] && longer[m + 1] == path[m]; }
    }
    assert StuckBy(t, w, cells, i, longer);
  }

  lemma StuckTop(t: Tables, w: Priorities, cells: Cells, i: Ref, n: nat)
    requires Stuck(t, w, cells, i) && n > 0
    ensures StuckDown(t, w, cells, i, n)
  {
    hide Stuck;
    assert Climb(cells, i, 0) == i;
  }

  lemma StuckBelow(t: Tables, w: Priorities, cells: Cells, i: Ref, n: nat)
    requires IsState(cells, i) && n > 0 && StuckDown(t, w, cells, cells[i].pred, n - 1)
    ensures StuckDown(t, w, cells, i, n)
  {
    hide Stuck;
    var d: nat :| d < n - 1 && Stuck(t, w, cells, Climb(cells, cells[i].pred, d));
    assert Climb(cells, i, d + 1) == Climb(cells, cells[i].pred, d);
  }

  /** An option of the best one's precedence is among those merged. */
  lemma {:induction false} PrecedenceHas(w: Priorities, rs: seq<nat>, ks: seq<Ref>, b: nat, j: nat, n: nat)
    requires b < j < n <= |ks| == |rs| && forall i | 0 <= i < |rs| :: rs[i] < |w.dprec|
    requires w.dprec[rs[j]] == w.dprec[rs[b]]
    ensures ks[j] in SamePrecedence(w, rs, ks, b, n)
    decreases n
  {
    if j < n - 1 { PrecedenceHas(w, rs, ks, b, j, n - 1); }
  }

  /** Nothing has changed but that some unresolved states have lost their options. */
  ghost predicate Cleared(a: Cells, b: Cells) {
    && |a| == |b|
    && forall i | 0 <= i < |a| && b[i] != a[i] :: IsState(a, i) && a[i].sem.Chain? && b[i] == a[i].(sem := Chain(NULL))
  }

  /** What every part of the resolution promises: it continues the run `past` soundly and changes nothing of
      rank `rank` or above; if it fails, it has got to the last arena of the run, and clears nothing but options of
      that. */
  ghost predicate Resolves(t: Tables, w: Priorities, merge: Merger, c: Certificate, text: seq<nat>, live: set<Ref>,
                           past: seq<Cells>, trace: seq<Cells>, cells: Cells, rank: nat, ok: bool)
    requires past != []
  {
    && past <= trace && Run(t, w, merge, trace)
    && Loose(t, c, text, Reached(trace), live) && Kept(t, c, Reached(past), Reached(trace), rank)
    && if ok then cells == Reached(trace) else Cleared(Reached(trace), cells)
  }

  lemma ResolvesSelf(t: Tables, w: Priorities, merge: Merger, c: Certificate, text: seq<nat>, live: set<Ref>,
                     past: seq<Cells>, rank: nat)
    requires past != [] && Run(t, w, merge, past) && Loose(t, c, text, Reached(past), live)
    ensures Resolves(t, w, merge, c, text, live, past, past, Reached(past), rank, true)
  {
    hide Loose, Kept, Run;
    KeptSelf(t, c, Reached(past), rank);
  }

  lemma ResolvesMore(t: Tables, w: Priorities, merge: Merger, c: Certificate, text: seq<nat>, live: set<Ref>,
                     past: seq<Cells>, trace: seq<Cells>, cells: Cells, rank: nat, more: nat, ok: bool)
    requires past != [] && Resolves(t, w, merge, c, text, live, past, trace, cells, rank, ok) && rank <= more
    ensures Resolves(t, w, merge, c, text, live, past, trace, cells, more, ok)
  {
    hide Loose, Kept, Run, Cleared;
    KeptMore(t, c, Reached(past), Reached(trace), rank, more);
  }

  lemma ResolvesTrans(t: Tables, w: Priorities, merge: Merger, c: Certificate, text: seq<nat>, live: set<Ref>,
                      past: seq<Cells>, mid: seq<Cells>, now: Cells, trace: seq<Cells>, cells: Cells, rank: nat,
                      ok: bool)
    requires past != [] && Resolves(t, w, merge, c, text, live, past, mid, now, rank, true)
    requires mid != [] && Resolves(t, w, merge, c, text, live, mid, trace, cells, rank, ok)
    ensures Resolves(t, w, merge, c, text, live, past, trace, cells, rank, ok)
  {
    hide Loose, Kept, Run, Cleared;
    KeptTrans(t, c, Reached(past), Reached(mid), Reached(trace), rank, rank);
  }

  /** The parts of the promise when all went well. */
  lemma ResolvesParts(t: Tables, w: Priorities, merge: Merger, c: Certificate, text: seq<nat>, live: set<Ref>,
                      past: seq<Cells>, trace: seq<Cells>, cells: Cells, rank: nat)
    requires past != [] && Resolves(t, w, merge, c, text, live, past, trace, cells, rank, true)
    ensures trace != [] && past <= trace && cells == Reached(trace) && cells in trace && Run(t, w, merge, trace)
    ensures Loose(t, c, text, cells, live) && Kept(t, c, Reached(past), cells, rank)
  {
    hide Loose, Kept, Run;
    assert trace[|trace| - 1] in trace;
  }

  /** Two options that derive the same symbol from the same tokens, differ, and cannot be combined.
      Nothing that resolution changes matters to it. */
  ghost predicate Clashing(t: Tables, w: Priorities, cells: Cells, live: set<Ref>, x: Ref, y: Ref) {
    && x in live && y in live && IsOption(cells, x) && IsOption(cells, y)
    && OptionSig(t, cells, x) == OptionSig(t, cells, y)
    && !SameOption(t, cells, x, y) && !CombinableAt(w, cells, x, y)
  }

  /** Where resolution gets stuck, the arena has two such options to begin with. */
  lemma StuckMeansClash(t: Tables, w: Priorities, merge: Merger, c: Certificate, text: seq<nat>, live: set<Ref>,
                        past: seq<Cells>, trace: seq<Cells>, cells: Cells, rank: nat, i: Ref)
    requires past != [] && Resolves(t, w, merge, c, text, live, past, trace, cells, rank, false)
    requires Stuck(t, w, Reached(trace), i) && |w.dprec| == |w.merger| == |t.r2|
    ensures exists x, y :: Clashing(t, w, Reached(past), live, x, y)
  {
    hide Loose, Run, ChoiceOf, SameOption, PreferAt, OptionSig, StateSig, RankAt, Kept, Calls;
    var before, a := Reached(past), Reached(trace);
    var path :| StuckBy(t, w, a, i, path);
    var x, y := ClashPair(t, w, c, text, a, live, path[|path| - 1]);
    KeptKinds(t, c, before, a, rank);
    SameOptionFrame(t, w, before, a, x, y);
    SigFrame(t, c, before, a, x);
    SigFrame(t, c, before, a, y);
    assert Clashing(t, w, before, live, x, y);
  }

  /** A clash is one between different options that cannot be combined; a choice is one that there was at every
      option, duplicates apart. */
  ghost predicate Means(t: Tables, w: Priorities, a: Cells, all: seq<Ref>, choice: Choice) {
    match choice
    case Clash(x, y) => x in all && y in all && !SameOption(t, a, x, y) && !CombinableAt(w, a, x, y)
    case Chosen(kept, b, m) =>
      b < |kept| && Sorted(w, a, kept, b, m) && forall x | x in all :: x in kept || Duplicate(t, a, kept, x)
  }

  /** The selection among the options of state `s`. */
  lemma ChoiceMeans(t: Tables, w: Priorities, c: Certificate, text: seq<nat>, a: Cells, live: set<Ref>, s: Ref)
    requires Loose(t, c, text, a, live) && IsState(a, s) && a[s].sem.Chain? && |w.dprec| == |w.merger| == |t.r2|
    ensures Means(t, w, a, ChainOf(a, a[s].sem.first), ChoiceOf(t, w, a, s))
  {
    hide Loose, SameOption, PreferAt, OptionSig, StateSig, Sorted, OptionFits, ChoiceFrom, RulesOf, LinkOk,
      CombinableAt, Duplicate;
    HeadChain(t, c, text, a, live, s);
    var k := a[s].sem.first;
    ChainedStep(a, k);
    var all := ChainOf(a, k);
    forall z | z in all
      ensures IsOption(a, z) && a[z].rule < |w.dprec|
    {
      LiveFits(t, c, text, a, live, z);
      FitsOption(t, c, a, z);
    }
    assert k in all;
    PickFirst(t, w, a, k);
    assert [k] + all[1..] == all;
    ClashIsReal(t, w, a, [k], 0, false, all[1..]);
    var choice := ChoiceOf(t, w, a, s);
    assert choice.Chosen? ==> choice.kept[0] == k;
  }

  /** There is a choice where any two different options have different precedences, or equal ones and a merge function
      in common. */
  lemma ChoiceExists(t: Tables, w: Priorities, c: Certificate, text: seq<nat>, a: Cells, live: set<Ref>, s: Ref)
    requires Loose(t, c, text, a, live) && IsState(a, s) && a[s].sem.Chain? && |w.dprec| == |w.merger| == |t.r2|
    requires forall x, y | x in ChainOf(a, a[s].sem.first) && y in ChainOf(a, a[s].sem.first) ::
      SameOption(t, a, x, y) || CombinableAt(w, a, x, y)
    ensures ChoiceOf(t, w, a, s).Chosen?
  {
    hide Loose, SameOption, ChoiceOf, CombinableAt, Sorted;
    ChoiceMeans(t, w, c, text, a, live, s);
  }

  lemma ClashPair(t: Tables, w: Priorities, c: Certificate, text: seq<nat>, a: Cells, live: set<Ref>, s: Ref)
    returns (x: Ref, y: Ref)
    requires Loose(t, c, text, a, live) && ClashAt(t, w, a, s) && |w.dprec| == |w.merger| == |t.r2|
    ensures Clashing(t, w, a, live, x, y) && 0 <= x < |a| && 0 <= y < |a|
  {
    hide Loose, SameOption, OptionSig, StateSig, Sorted, ChoiceOf, CombinableAt;
    HeadChain(t, c, text, a, live, s);
    ChoiceMeans(t, w, c, text, a, live, s);
    var clash := ChoiceOf(t, w, a, s);
    x, y := clash.best, clash.other;
  }
}
