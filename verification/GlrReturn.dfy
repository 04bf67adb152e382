/** The return to deterministic operation: `yyresolveStack` followed by `yycompressStack`. */
module GlrReturn {
  import opened Grammar
  import opened LrTables
  import opened GlrForest
  import opened GlrMachine
  import opened GlrLoose
  import opened GlrRank
  import opened GlrResolve
  import opened GlrChoice
  import opened GlrTrace
  import opened GlrEvaluate
  import opened GlrValues
  import opened UnitSteps
  import GlrCompress

  /** A chain that leads from `i` to `split` in `n` steps, all above it. */
  lemma {:induction false} StepsToSplit(g: Glr, i: Ref) returns (n: nat)
    requires SplitOk(g) && g.split != NULL && Descending(g.cells) && IsState(g.cells, i) && g.split <= i
    ensures Climb(g.cells, i, n) == g.split
    ensures forall d | 0 <= d < n :: AboveSplit(g, Climb(g.cells, i, d))
    decreases i
  {
    if i == g.split {
      n := 0;
    } else {
      assert StepsDown(g.cells, i);
      n := StepsToSplit(g, g.cells[i].pred);
      n := n + 1;
      forall d | 0 <= d < n
        ensures AboveSplit(g, Climb(g.cells, i, d))
      {
        if d > 0 { assert AboveSplit(g, Climb(g.cells, g.cells[i].pred, d - 1)); }
      }
    }
  }

  ghost predicate AboveSplit(g: Glr, s: Ref) {
    IsState(g.cells, s) && g.split < s
  }

  /** Some rank is above those of all states on the chain. */
  lemma {:induction false} SomeRank(t: Tables, c: Certificate, g: Glr, i: Ref, n: nat) returns (rank: nat)
    requires g.split >= 0 && forall d | 0 <= d < n :: AboveSplit(g, Climb(g.cells, i, d))
    ensures BelowRank(t, c, g.cells, i, n, rank)
    decreases n
  {
    hide RankAt;
    if n == 0 {
      rank := 0;
    } else {
      var r := SomeRank(t, c, g, i, n - 1);
      var s := Climb(g.cells, i, n - 1);
      assert AboveSplit(g, s);
      var x := RankAt(t, c, g.cells, s) + 1;
      rank := if r < x then x else r;
      forall d | 0 <= d < n
        ensures Lower(t, c, g.cells, Climb(g.cells, i, d), rank)
      {
        if d < n - 1 { assert Lower(t, c, g.cells, Climb(g.cells, i, d), r); }
      }
    }
  }

  /** `yyresolveStack`, for the only stack that is left. It fails only if the value of a state of the stack calls
      for that of a state whose selection fails. */
  method ResolveStack(cells: array<Cell>, t: Tables, w: Priorities, merge: Merger, top: Ref, split: Ref,
                      ghost c: Certificate, ghost text: seq<nat>, ghost g: Glr)
    returns (ok: bool, ghost live: set<Ref>, ghost rank: nat, ghost trace: seq<Cells>)
    requires Inv(t, c, text, g) && g.split == split != NULL && g.tops == [top] && top != NULL && cells[..] == g.cells
    requires !Cyclic(c.g) && MergeSound(c.g, merge) && |w.dprec| == |w.merger| == |t.r2|
    modifies cells
    ensures Loose(t, c, text, g.cells, live)
    ensures trace != [] && Resolves(t, w, merge, c, text, live, [g.cells], trace, cells[..], rank, ok)
    ensures ok ==> Resolution(t, c, text, g, cells[..])
    ensures StackYields(t, w, merge, g, Ended(ok, cells[..]))
    ensures !ok ==> StackStuck(t, w, g, Reached(trace))
    ensures !ok ==> exists x, y :: Clashing(t, w, g.cells, live, x, y)
  {
    hide Loose, Cyclic, MergeSound, Kept, BelowRank, GlrTrace.ResolvedDown, RankAt, Inv, Forest, SplitOk, Descending,
      Climb, Resolves, Run, Clashing, StuckDown, StackStuck, Stuck, StatesOn, StackYields;
    ghost var steps;
    live, steps, rank := ReturnFacts(t, c, text, g, top);
    var n: nat := 0;
    var s := top;
    NoClimb(g.cells, top);
    while s != split
      invariant cells[..] == g.cells
      invariant 0 <= n <= steps && s == Climb(g.cells, top, n)
      decreases steps - n
    {
      assert n < steps;
      assert AboveSplit(g, Climb(g.cells, top, n));
      ClimbStep(g.cells, top, n);
      s := cells[s].pred;
      n := n + 1;
    }
    NotBefore(g, top, n, steps);
    RunStart(t, w, merge, g.cells);
    ok, trace := ResolveStates(cells, t, w, merge, top, n, c, text, live, rank, [g.cells]);
    YieldsBy(t, w, merge, g, top, n, steps, rank, Ended(ok, cells[..]));
    if ok {
      ghost var after := cells[..];
      ResolvesParts(t, w, merge, c, text, live, [g.cells], trace, after, rank);
      Returned(t, c, text, g, after, live, rank, top, n);
    } else {
      var i := StackStuckAt(t, w, g, Reached(trace), top, n, steps);
      StuckMeansClash(t, w, merge, c, text, live, [g.cells], trace, cells[..], rank, i);
    }
  }

  /** The `n` states above the split point on the only stack. */
  ghost predicate Height(g: Glr, n: nat)
    requires |g.tops| == 1
  {
    Climb(g.cells, g.tops[0], n) == g.split && forall d | 0 <= d < n :: AboveSplit(g, Climb(g.cells, g.tops[0], d))
  }

  /** What the resolution of the only stack comes to, at some depth. */
  ghost predicate StackYields(t: Tables, w: Priorities, merge: Merger, g: Glr, e: Evaluation) {
    |g.tops| == 1 && !e.TooDeep? && exists n: nat, depth: nat ::
      Height(g, n) && StatesOn(t, w, merge, g.cells, g.tops[0], n, depth) == e
  }

  lemma YieldsBy(t: Tables, w: Priorities, merge: Merger, g: Glr, top: Ref, n: nat, steps: nat, depth: nat,
                 e: Evaluation)
    requires g.tops == [top] && n == steps && Climb(g.cells, top, steps) == g.split
    requires forall d | 0 <= d < steps :: AboveSplit(g, Climb(g.cells, top, d))
    requires StatesOn(t, w, merge, g.cells, top, n, depth) == e && !e.TooDeep?
    ensures StackYields(t, w, merge, g, e)
  {
    hide StatesOn, Climb;
    assert Height(g, n);
  }

  lemma HeightAbove(g: Glr, n: nat, d: nat)
    requires |g.tops| == 1 && Height(g, n) && d < n
    ensures Climb(g.cells, g.tops[0], d) != g.split
  {
    hide Climb;
    assert AboveSplit(g, Climb(g.cells, g.tops[0], d));
  }

  /** It comes to one thing only. */
  lemma YieldsOne(t: Tables, w: Priorities, merge: Merger, g: Glr, e: Evaluation, e': Evaluation)
    requires StackYields(t, w, merge, g, e) && StackYields(t, w, merge, g, e')
    ensures e == e'
  {
    hide StatesOn, Climb;
    var n: nat, depth: nat :| Height(g, n) && StatesOn(t, w, merge, g.cells, g.tops[0], n, depth) == e;
    var n': nat, depth': nat :| Height(g, n') && StatesOn(t, w, merge, g.cells, g.tops[0], n', depth') == e';
    if n < n' { HeightAbove(g, n', n); }
    if n' < n { HeightAbove(g, n, n'); }
    DeeperStates(t, w, merge, g.cells, g.tops[0], n, if depth < depth' then depth else depth',
                 if depth < depth' then depth' else depth);
  }

  /** Resolution is stuck for a state of the only stack above the split point. */
  ghost predicate StackStuck(t: Tables, w: Priorities, g: Glr, a: Cells) {
    |g.tops| == 1 && exists n: nat :: StuckAbove(t, w, g, a, n)
  }

  ghost predicate StuckAbove(t: Tables, w: Priorities, g: Glr, a: Cells, n: nat)
    requires |g.tops| == 1
  {
    Height(g, n) && StuckDown(t, w, a, g.tops[0], n)
  }

  lemma StackStuckAt(t: Tables, w: Priorities, g: Glr, a: Cells, top: Ref, n: nat, steps: nat) returns (i: Ref)
    requires g.tops == [top] && n == steps && Climb(g.cells, top, steps) == g.split
    requires forall d | 0 <= d < steps :: AboveSplit(g, Climb(g.cells, top, d))
    requires StuckDown(t, w, a, top, n)
    ensures StackStuck(t, w, g, a) && Stuck(t, w, a, i)
  {
    hide Stuck, Climb;
    assert StuckAbove(t, w, g, a, n);
    var d: nat :| d < n && Stuck(t, w, a, Climb(a, top, d));
    i := Climb(a, top, d);
  }

  lemma RunStart(t: Tables, w: Priorities, merge: Merger, cells: Cells)
    ensures Run(t, w, merge, [cells]) && Reached([cells]) == cells
  {
  }

  /** What resolution leaves: sound stems, the same frame, no value lost, and values for all states of
      the chain above the split point. */
  ghost predicate Resolution(t: Tables, c: Certificate, text: seq<nat>, g: Glr, after: Cells)
    requires |g.tops| == 1 && g.split >= 0
  {
    && Stems(t, c, text, after) && SameFrame(g.cells, after)
    && (forall i | IsState(g.cells, i) && g.cells[i].sem.Val? :: IsState(after, i) && after[i].sem.Val?)
    && exists n: nat :: ClimbsTo(after, g.tops[0], n, g.split)
  }

  ghost predicate ClimbsTo(cells: Cells, i: Ref, n: nat, split: Ref) {
    && Climb(cells, i, n) == split
    && forall d | 0 <= d < n :: HasValue(cells, Climb(cells, i, d)) && Climb(cells, i, d) > split
  }

  lemma NotBefore(g: Glr, i: Ref, n: nat, steps: nat)
    requires n <= steps && Climb(g.cells, i, n) == g.split
    requires forall d | 0 <= d < steps :: AboveSplit(g, Climb(g.cells, i, d))
    ensures n == steps
  {
    assert n < steps ==> AboveSplit(g, Climb(g.cells, i, n));
  }

  lemma ReturnFacts(t: Tables, c: Certificate, text: seq<nat>, g: Glr, top: Ref)
    returns (live: set<Ref>, steps: nat, rank: nat)
    requires Inv(t, c, text, g) && g.split != NULL && g.tops == [top] && top != NULL
    ensures Loose(t, c, text, g.cells, live) && g.split >= 0
    ensures Climb(g.cells, top, steps) == g.split
    ensures forall d | 0 <= d < steps :: AboveSplit(g, Climb(g.cells, top, d))
    ensures BelowRank(t, c, g.cells, top, steps, rank)
  {
    hide Forest, Loose, BelowRank, RankAt;
    CoreForest(t, c, text, g);
    live := ForestIsLoose(t, c, text, g.cells);
    assert g.tops[0] == top;
    steps := StepsToSplit(g, top);
    rank := SomeRank(t, c, g, top, steps);
  }

  lemma {:induction false} Returned(t: Tables, c: Certificate, text: seq<nat>, g: Glr, after: Cells, live: set<Ref>,
                                    rank: nat, top: Ref, n: nat)
    requires Loose(t, c, text, after, live) && Kept(t, c, g.cells, after, rank) && GlrTrace.ResolvedDown(after, top, n)
    requires g.tops == [top] && g.split >= 0 && Climb(g.cells, top, n) == g.split
    requires forall d | 0 <= d < n :: AboveSplit(g, Climb(g.cells, top, d))
    ensures Resolution(t, c, text, g, after)
  {
    hide Stems, RankAt, LiveOk, HeadOk;
    forall d | 0 <= d <= n
      ensures Climb(after, top, d) == Climb(g.cells, top, d)
    {
      ClimbFrame(g.cells, after, top, d);
    }
    assert Stems(t, c, text, after) && SameFrame(g.cells, after);
    assert ClimbsTo(after, g.tops[0], n, g.split) by {
      forall d | 0 <= d < n
        ensures HasValue(after, Climb(after, top, d)) && Climb(after, top, d) > g.split
      {
        assert AboveSplit(g, Climb(g.cells, top, d));
      }
    }
  }

  /** Resolution does not touch the shape of the stack. */
  lemma ResolvedShape(t: Tables, c: Certificate, text: seq<nat>, g: Glr, after: Cells)
    requires Inv(t, c, text, g) && g.split != NULL && |g.tops| == 1 && IsLive(g, 0) && Descending(g.cells)
    requires Resolution(t, c, text, g, after)
    ensures var g' := g.(cells := after); SplitOk(g') && Descending(after) && IsLive(g', 0) && g'.split <= g'.tops[0]
  {
    hide Forest, Stems;
    forall i | 0 <= i < |after|
      ensures IsState(after, i) == IsState(g.cells, i)
      ensures IsState(after, i) ==> after[i].pred == g.cells[i].pred && after[i].posn == g.cells[i].posn
    {
      assert CellFrame(g.cells[i], after[i]);
    }
    forall j | IsState(after, j)
      ensures StepsDown(after, j)
    {
      assert StepsDown(g.cells, j);
    }
  }

  /** Only the values of the states matter for the way back. */
  function Revalued(cells: Cells, after: Cells): (mixed: Cells)
    requires |after| == |cells|
    ensures |mixed| == |cells|
    ensures forall i | 0 <= i < |cells| :: mixed[i] == if HasValue(after, i) then after[i] else cells[i]
  {
    seq(|cells|, i requires 0 <= i < |cells| => if HasValue(after, i) then after[i] else cells[i])
  }

  lemma RevaluedResolution(t: Tables, c: Certificate, text: seq<nat>, g: Glr, after: Cells)
    requires Inv(t, c, text, g) && g.split != NULL && |g.tops| == 1 && Resolution(t, c, text, g, after)
    ensures Resolution(t, c, text, g, Revalued(g.cells, after))
  {
    hide Forest, Checked, Edge, Spans, DerivesSpan;
    var mixed := Revalued(g.cells, after);
    assert SameFrame(g.cells, mixed) by {
      forall i | 0 <= i < |mixed|
        ensures CellFrame(g.cells[i], mixed[i])
      {
        assert CellFrame(g.cells[i], after[i]);
      }
    }
    var live := ForestIsLoose(t, c, text, g.cells);
    forall i | IsState(mixed, i)
      ensures StemOk(t, c, text, mixed, i)
    {
      RevaluedStem(t, c, text, g.cells, after, i);
    }
    assert mixed[0] == after[0];
    var n: nat :| ClimbsTo(after, g.tops[0], n, g.split);
    forall d | 0 <= d <= n
      ensures Climb(mixed, g.tops[0], d) == Climb(after, g.tops[0], d)
    {
      ClimbFrame(g.cells, mixed, g.tops[0], d);
      ClimbFrame(g.cells, after, g.tops[0], d);
    }
    assert ClimbsTo(mixed, g.tops[0], n, g.split);
  }

  lemma RevaluedStem(t: Tables, c: Certificate, text: seq<nat>, cells: Cells, after: Cells, i: Ref)
    requires Stems(t, c, text, cells) && Stems(t, c, text, after) && SameFrame(cells, after)
    requires forall i | IsState(cells, i) && cells[i].sem.Val? :: IsState(after, i) && after[i].sem.Val?
    requires IsState(Revalued(cells, after), i)
    ensures StemOk(t, c, text, Revalued(cells, after), i)
  {
    hide Checked, Edge, Spans, DerivesSpan;
    assert CellFrame(cells[i], after[i]);
    assert StemOk(t, c, text, cells, i) && StemOk(t, c, text, after, i);
    if i > 0 { assert CellFrame(cells[cells[i].pred], after[cells[i].pred]); }
  }

  /** Compression does not look at anything else. */
  lemma RevaluedCompress(t: Tables, c: Certificate, text: seq<nat>, g: Glr, after: Cells)
    requires Inv(t, c, text, g) && g.split != NULL && |g.tops| == 1 && IsLive(g, 0) && Resolution(t, c, text, g, after)
    ensures GlrCompress.Compress(g.(cells := Revalued(g.cells, after))) == GlrCompress.Compress(g.(cells := after))
  {
    hide Forest, Stems, GlrCompress.Above;
    var mixed := Revalued(g.cells, after);
    forall i | 0 <= i < |after|
      ensures CellFrame(after[i], mixed[i])
    {
      assert CellFrame(g.cells[i], after[i]);
    }
    forall i | 0 <= i <= g.split
      ensures mixed[i] == after[i]
    {
      assert IsState(g.cells, i);
    }
    assert mixed[..g.split + 1] == after[..g.split + 1];
    var n: nat :| ClimbsTo(after, g.tops[0], n, g.split);
    AboveSame(after, mixed, g.tops[0], n, g.split);
    assert IsState(g.cells, g.split);
    CompressSame(g, mixed, after);
  }

  lemma {:induction false} AboveSame(a: Cells, b: Cells, i: Ref, n: nat, split: Ref)
    requires |a| == |b| && ClimbsTo(a, i, n, split) && forall j | HasValue(a, j) :: b[j] == a[j]
    ensures GlrCompress.Above(b, i, split) == GlrCompress.Above(a, i, split)
    decreases n
  {
    if n > 0 {
      assert HasValue(a, Climb(a, i, 0));
      forall d | 0 <= d < n - 1
        ensures HasValue(a, Climb(a, a[i].pred, d)) && Climb(a, a[i].pred, d) > split
      {
        assert HasValue(a, Climb(a, i, d + 1));
      }
      AboveSame(a, b, a[i].pred, n - 1, split);
    }
  }

  /** Compressing a resolved stack: back to deterministic operation with the invariant intact, and with
      the sequence of states of the stack unchanged. */
  lemma ReturnKeeps(t: Tables, c: Certificate, text: seq<nat>, g: Glr, after: Cells)
    requires Inv(t, c, text, g) && g.split != NULL && |g.tops| == 1 && IsLive(g, 0)
    requires Resolution(t, c, text, g, after)
    ensures var g' := GlrCompress.Compress(g.(cells := after));
      && Inv(t, c, text, g') && g'.split == NULL
      && |g'.tops| == 1 && Path(g'.cells, g'.tops[0]) == Path(g.cells, g.tops[0])
  {
    hide Stems, Forest, Checked, Contiguous, Path, GlrCompress.Above;
    var full := Fill(t, c, text, after);
    FrameTrans(g.cells, after, full);
    var filled := g.(cells := full);
    FilledInv(t, c, text, g, full);
    var n: nat :| ClimbsTo(after, g.tops[0], n, g.split);
    SameAbove(t, c, text, g, after, full, g.tops[0], n);
    LinearPart(g, after, full);
    GlrCompress.CompressKeeps(t, c, text, filled);
    PathFrame(g.cells, full, g.tops[0]);
    CompressSame(g, after, full);
  }

  lemma LinearPart(g: Glr, after: Cells, full: Cells)
    requires SplitOk(g) && g.split != NULL && SameFrame(g.cells, after) && |full| == |after|
    requires forall i | IsState(g.cells, i) && g.cells[i].sem.Val? :: IsState(after, i) && after[i].sem.Val?
    requires forall i | IsState(after, i) && after[i].sem.Val? :: full[i] == after[i]
    ensures after[..g.split + 1] == full[..g.split + 1]
  {
    forall i | 0 <= i <= g.split
      ensures after[i] == full[i]
    {
      assert IsState(g.cells, i);
    }
  }

  lemma CompressSame(g: Glr, after: Cells, full: Cells)
    requires |g.tops| == 1 && IsState(after, g.split) && IsState(full, g.split)
    requires after[..g.split + 1] == full[..g.split + 1]
    requires GlrCompress.Above(after, g.tops[0], g.split) == GlrCompress.Above(full, g.tops[0], g.split)
    ensures GlrCompress.Compress(g.(cells := after)) == GlrCompress.Compress(g.(cells := full))
  {
  }

  /** Giving every state a value does not affect the invariant. */
  lemma FilledInv(t: Tables, c: Certificate, text: seq<nat>, g: Glr, full: Cells)
    requires Inv(t, c, text, g) && g.split != NULL && Forest(t, c, text, full) && SameFrame(g.cells, full)
    requires forall i | IsState(full, i) :: full[i].sem.Val?
    ensures Inv(t, c, text, g.(cells := full))
  {
    hide Forest;
    forall i | 0 <= i < |full|
      ensures IsState(full, i) == IsState(g.cells, i)
      ensures IsState(full, i) ==> full[i].pred == g.cells[i].pred && full[i].posn == g.cells[i].posn
    {
      assert CellFrame(g.cells[i], full[i]);
    }
  }

  lemma {:induction false} SameAbove(t: Tables, c: Certificate, text: seq<nat>, g: Glr, after: Cells, full: Cells,
                                     i: Ref, n: nat)
    requires Forest(t, c, text, full) && SameFrame(after, full) && g.split >= 0
    requires forall j | IsState(after, j) && after[j].sem.Val? :: full[j] == after[j]
    requires forall j | IsState(full, j) :: full[j].sem.Val?
    requires ClimbsTo(after, i, n, g.split)
    ensures GlrCompress.Above(after, i, g.split) == GlrCompress.Above(full, i, g.split)
    ensures GlrCompress.Resolved(full, i, g.split)
    decreases n
  {
    hide Forest;
    if n > 0 {
      assert HasValue(after, Climb(after, i, 0));
      Below(t, c, text, full, i);
      forall d | 0 <= d < n - 1
        ensures HasValue(after, Climb(after, after[i].pred, d)) && Climb(after, after[i].pred, d) > g.split
      {
        assert HasValue(after, Climb(after, i, d + 1));
      }
      SameAbove(t, c, text, g, after, full, after[i].pred, n - 1);
    }
  }
}
