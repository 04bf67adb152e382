/** `yycompressStack` on values: the states above the split point, relinked one after another. */
module GlrCompress {
  import opened Grammar
  import opened LrTables
  import opened GlrForest
  import opened GlrMachine

  /** The cells on the chain from `i` down to `split`, exclusively, lowest first. */
  function Above(cells: Cells, i: Ref, split: Ref): Cells
    decreases i
  {
    if i <= split || !IsState(cells, i) || cells[i].pred >= i then []
    else Above(cells, cells[i].pred, split) + [cells[i]]
  }

  function Relinked(cs: Cells, n: Ref): Cells {
    seq(|cs|, j requires 0 <= j < |cs| => if cs[j].StateCell? then cs[j].(pred := n + j) else cs[j])
  }

  /** The compressed arena below and up to state `i` of the chain. */
  function CompressedTo(cells: Cells, i: Ref, split: Ref): Cells
    requires IsState(cells, split)
  {
    cells[..split + 1] + Relinked(Above(cells, i, split), split)
  }

  /** `yycompressStack`. */
  function Compress(g: Glr): Glr {
    if |g.tops| != 1 || !IsState(g.cells, g.split) then g
    else
      var chain := Above(g.cells, g.tops[0], g.split);
      Glr(CompressedTo(g.cells, g.tops[0], g.split), [g.split + |chain|], NULL, g.pos)
  }

  /** All states above the split point have their values. */
  predicate Resolved(cells: Cells, i: Ref, split: Ref) {
    forall s | s in Above(cells, i, split) :: s.StateCell? && s.sem.Val?
  }

  /** A linear arena that ends like the predecessor of a resolved state, extended by that state. */
  lemma ExtendLinear(t: Tables, c: Certificate, text: seq<nat>, cells: Cells, i: Ref, a: Cells)
    requires Forest(t, c, text, cells) && IsState(cells, i) && i > 0 && cells[i].sem.Val?
    requires IsState(cells, cells[i].pred)
    requires Forest(t, c, text, a) && Contiguous(a, |a| - 1) && IsState(a, |a| - 1)
    requires var last := a[|a| - 1]; var p := cells[cells[i].pred]; last.lr == p.lr && last.posn == p.posn
    requires Path(a, |a| - 1) == Path(cells, cells[i].pred)
    ensures var b := WithState(a, cells[i].lr, |a| - 1, cells[i].posn, cells[i].sem);
      Forest(t, c, text, b) && Contiguous(b, |b| - 1) && Path(b, |b| - 1) == Path(cells, i)
  {
    hide Forest, Edge, DerivesSpan, Contiguous;
    var b := WithState(a, cells[i].lr, |a| - 1, cells[i].posn, cells[i].sem);
    Below(t, c, text, cells, i);
    ValueDerives(t, c, text, cells, i);
    PushForest(t, c, text, a, cells[i].lr, |a| - 1, cells[i].posn, cells[i].sem.tree);
    PushedContiguous(a, cells[i].lr, cells[i].posn, cells[i].sem.tree);
    PathStable(a, b, |a| - 1);
  }

  lemma CompressedStep(cells: Cells, i: Ref, split: Ref)
    requires IsState(cells, split) && IsState(cells, i) && split < i && cells[i].pred < i
    ensures Above(cells, i, split) == Above(cells, cells[i].pred, split) + [cells[i]]
    ensures var a := CompressedTo(cells, cells[i].pred, split);
      CompressedTo(cells, i, split) == WithState(a, cells[i].lr, |a| - 1, cells[i].posn, cells[i].sem)
  {
    var lower := Above(cells, cells[i].pred, split);
    assert Relinked(lower + [cells[i]], split) == Relinked(lower, split) + [cells[i].(pred := split + |lower|)];
  }

  lemma CompressedBottom(t: Tables, c: Certificate, text: seq<nat>, cells: Cells, split: Ref)
    requires Forest(t, c, text, cells) && IsState(cells, split) && Contiguous(cells, split)
    ensures var b := CompressedTo(cells, split, split);
      && |b| == split + 1 && b == cells[..split + 1]
      && Forest(t, c, text, b) && Contiguous(b, split) && Path(b, split) == Path(cells, split)
  {
    hide Forest;
    var b := CompressedTo(cells, split, split);
    assert b == cells[..split + 1];
    PrefixForest(t, c, text, cells, split + 1);
    PathStable(b, cells, split);
  }

  lemma ResolvedDown(cells: Cells, i: Ref, split: Ref)
    requires IsState(cells, i) && split < i && cells[i].pred < i && Resolved(cells, i, split)
    ensures cells[i].sem.Val? && Resolved(cells, cells[i].pred, split)
  {
    assert cells[i] in Above(cells, i, split);
    assert forall s | s in Above(cells, cells[i].pred, split) :: s in Above(cells, i, split);
  }

  /** A linear arena that ends like state `i`. */
  ghost predicate EndsLike(t: Tables, c: Certificate, text: seq<nat>, b: Cells, cells: Cells, i: Ref) {
    && IsState(cells, i) && IsState(b, |b| - 1)
    && Forest(t, c, text, b) && Contiguous(b, |b| - 1)
    && b[|b| - 1].lr == cells[i].lr && b[|b| - 1].posn == cells[i].posn && b[|b| - 1].sem == cells[i].sem
    && Path(b, |b| - 1) == Path(cells, i)
  }

  /** The states of the chain, and what is below the split point, are a path in the new arena, too. */
  lemma {:induction false} CompressForest(t: Tables, c: Certificate, text: seq<nat>, cells: Cells, i: Ref, split: Ref)
    requires Forest(t, c, text, cells) && IsState(cells, i) && 0 <= split <= i
    requires IsState(cells, split) && Contiguous(cells, split) && Resolved(cells, i, split)
    requires forall j | IsState(cells, j) && split < j :: split <= cells[j].pred
    ensures EndsLike(t, c, text, CompressedTo(cells, i, split), cells, i)
    decreases i
  {
    hide Forest, Contiguous, CompressedTo, Above, Path, Edge, DerivesSpan, Resolved;
    if i == split {
      CompressedBottom(t, c, text, cells, split);
    } else {
      Below(t, c, text, cells, i);
      CompressedStep(cells, i, split);
      ResolvedDown(cells, i, split);
      var p := cells[i].pred;
      CompressForest(t, c, text, cells, p, split);
      ExtendLinear(t, c, text, cells, i, CompressedTo(cells, p, split));
    }
  }

  lemma {:induction false} PathStable(a: Cells, b: Cells, i: Ref)
    requires Linked(a) || Contiguous(a, |a| - 1)
    requires |a| <= |b| && a == b[..|a|] && IsState(a, i)
    ensures Path(a, i) == Path(b, i)
    decreases i
  {
    if 0 <= a[i].pred < i { PathStable(a, b, a[i].pred); }
  }

  /** Compression keeps the invariant, returns to deterministic operation, and leaves the sequence
      of states unchanged. */
  lemma CompressKeeps(t: Tables, c: Certificate, text: seq<nat>, g: Glr)
    requires Inv(t, c, text, g) && g.split != NULL && |g.tops| == 1 && IsLive(g, 0)
    requires Resolved(g.cells, g.tops[0], g.split)
    ensures Inv(t, c, text, Compress(g))
    ensures Path(Compress(g).cells, Compress(g).tops[0]) == Path(g.cells, g.tops[0])
  {
    hide Forest, Contiguous, Above, Path;
    CompressForest(t, c, text, g.cells, g.tops[0], g.split);
  }

  /** The states from the bottom of a stack to state `i`, with all that they hold but their links. */
  function Contents(cells: Cells, i: Ref): Cells
    decreases i
  {
    if !IsState(cells, i) then []
    else (if cells[i].pred < i then Contents(cells, cells[i].pred) else []) + [cells[i].(pred := NULL)]
  }

  lemma {:induction false} ContentsStable(a: Cells, b: Cells, i: Ref)
    requires |a| <= |b| && a == b[..|a|] && i < |a|
    ensures Contents(a, i) == Contents(b, i)
    decreases i
  {
    if IsState(a, i) && a[i].pred < i { ContentsStable(a, b, a[i].pred); }
  }

  /** The predecessor of a state above the split point. */
  lemma ChainStep(g: Glr, i: Ref)
    requires SplitOk(g) && g.split != NULL && Descending(g.cells) && IsState(g.cells, i) && g.split < i
    ensures IsState(g.cells, g.split) && g.split <= g.cells[i].pred < i && IsState(g.cells, g.cells[i].pred)
  {
    assert StepsDown(g.cells, i);
  }

  /** One state more on top of a stack. */
  lemma OneMoreState(a: Cells, b: Cells, cells: Cells, i: Ref)
    requires a != [] && IsState(cells, i) && cells[i].pred < i
    requires b == WithState(a, cells[i].lr, |a| - 1, cells[i].posn, cells[i].sem)
    requires Contents(a, |a| - 1) == Contents(cells, cells[i].pred)
    ensures |b| == |a| + 1 && Contents(b, |b| - 1) == Contents(cells, i)
  {
    ContentsStable(a, b, |a| - 1);
  }

  lemma {:induction false} CompressedContents(g: Glr, i: Ref)
    requires SplitOk(g) && g.split != NULL && Descending(g.cells) && IsState(g.cells, i) && g.split <= i
    ensures IsState(g.cells, g.split)
    ensures var b := CompressedTo(g.cells, i, g.split);
      && |b| == g.split + 1 + |Above(g.cells, i, g.split)|
      && Contents(b, |b| - 1) == Contents(g.cells, i)
    decreases i
  {
    hide CompressedTo, SplitOk, Descending, Above, Contents;
    if i == g.split {
      BottomContents(g);
    } else {
      ChainStep(g, i);
      var p := g.cells[i].pred;
      CompressedContents(g, p);
      CompressedStep(g.cells, i, g.split);
      OneMoreState(CompressedTo(g.cells, p, g.split), CompressedTo(g.cells, i, g.split), g.cells, i);
    }
  }

  lemma BottomContents(g: Glr)
    requires IsState(g.cells, g.split)
    ensures var b := CompressedTo(g.cells, g.split, g.split);
      |b| == g.split + 1 && Above(g.cells, g.split, g.split) == [] && Contents(b, g.split) == Contents(g.cells, g.split)
  {
    var b := CompressedTo(g.cells, g.split, g.split);
    assert b == g.cells[..g.split + 1];
    ContentsStable(b, g.cells, g.split);
  }

  /** Compression leaves the stack with the same states, positions and values from bottom to top. */
  lemma CompressValues(g: Glr)
    requires SplitOk(g) && g.split != NULL && Descending(g.cells) && |g.tops| == 1 && IsLive(g, 0)
    ensures var g' := Compress(g); |g'.tops| == 1 && Contents(g'.cells, g'.tops[0]) == Contents(g.cells, g.tops[0])
  {
    hide Contents, CompressedTo;
    CompressedContents(g, g.tops[0]);
  }

  /** The indices of the cells of `Above`, lowest first. */
  function Rungs(cells: Cells, i: Ref, split: Ref): (ix: seq<Ref>)
    ensures |ix| == |Above(cells, i, split)|
    ensures forall j | 0 <= j < |ix| :: IsState(cells, ix[j]) && Above(cells, i, split)[j] == cells[ix[j]]
    decreases i
  {
    if i <= split || !IsState(cells, i) || cells[i].pred >= i then []
    else Rungs(cells, cells[i].pred, split) + [i]
  }

  /** The indices rise from above the split point to `i`, each that of the predecessor of the next. */
  ghost predicate Rising(cells: Cells, split: Ref, i: Ref, ix: seq<Ref>) {
    && (forall j | 0 <= j < |ix| :: IsState(cells, ix[j]) && split < ix[j] <= i)
    && (ix == [] <==> i == split)
    && (ix != [] ==> ix[|ix| - 1] == i && cells[ix[0]].pred == split)
    && (forall j | 0 < j < |ix| :: cells[ix[j]].pred == ix[j - 1])
    && (forall j, k | 0 <= j < k < |ix| :: ix[j] < ix[k])
  }

  lemma RisingAppend(cells: Cells, split: Ref, i: Ref, ix: seq<Ref>)
    requires IsState(cells, i) && split <= cells[i].pred < i && Rising(cells, split, cells[i].pred, ix)
    ensures Rising(cells, split, i, ix + [i])
  {
    var ix' := ix + [i];
    forall j, k | 0 <= j < k < |ix'|
      ensures ix'[j] < ix'[k]
    {
      if k == |ix| { assert ix[j] <= cells[i].pred; }
    }
  }

  /** The rungs rise from the split point to the top, each the predecessor of the next. */
  lemma {:induction false} RungsRise(g: Glr, i: Ref)
    requires SplitOk(g) && g.split != NULL && Descending(g.cells) && IsState(g.cells, i) && g.split <= i
    ensures Rising(g.cells, g.split, i, Rungs(g.cells, i, g.split))
    decreases i
  {
    hide SplitOk, Descending;
    if i != g.split {
      ChainStep(g, i);
      RungsRise(g, g.cells[i].pred);
      RisingAppend(g.cells, g.split, i, Rungs(g.cells, g.cells[i].pred, g.split));
    }
  }

  lemma {:induction false} RungsHigh(ix: seq<Ref>, split: Ref, j: nat)
    requires j < |ix| && split < ix[0] && forall j, k | 0 <= j < k < |ix| :: ix[j] < ix[k]
    ensures split + 1 + j <= ix[j]
    decreases j
  {
    if j > 0 { RungsHigh(ix, split, j - 1); }
  }
}
