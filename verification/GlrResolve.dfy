/** Resolution of deferred values in place: `yymergeOptionSets`, `yyresolveValue` and the functions
    between them. */
module GlrResolve {
  import opened Grammar
  import opened LrTables
  import opened GlrForest
  import opened GlrOptions
  import opened GlrLoose
  import opened GlrRank
  import opened UnitSteps

  /** Nothing of rank `rank` or above has changed, and no value has been lost. */
  ghost predicate Kept(t: Tables, c: Certificate, before: Cells, after: Cells, rank: nat) {
    && SameFrame(before, after)
    && (forall i | 0 <= i < |before| && rank <= RankAt(t, c, before, i) :: after[i] == before[i])
    && (forall i | IsState(before, i) && before[i].sem.Val? :: IsState(after, i) && after[i].sem.Val?)
  }

  lemma KeptTrans(t: Tables, c: Certificate, x: Cells, y: Cells, z: Cells, r: nat, s: nat)
    requires Kept(t, c, x, y, r) && Kept(t, c, y, z, s) && r <= s
    ensures Kept(t, c, x, z, s)
  {
    hide RankAt;
    RankFrame(t, c, x, y);
    forall i | 0 <= i < |x|
      ensures CellFrame(x[i], z[i])
    {
      assert CellFrame(x[i], y[i]) && CellFrame(y[i], z[i]);
    }
  }

  lemma KeptMore(t: Tables, c: Certificate, x: Cells, y: Cells, r: nat, s: nat)
    requires Kept(t, c, x, y, r) && r <= s
    ensures Kept(t, c, x, y, s)
  {
  }

  /** Every option on the chain from a live one is live and of the same signature. */
  lemma {:induction false} LiveChain(t: Tables, c: Certificate, text: seq<nat>, cells: Cells, live: set<Ref>, k: Ref)
    requires Loose(t, c, text, cells, live) && k in live
    ensures Chained(cells, k)
    ensures forall x | x in ChainOf(cells, k) ::
      x in live && IsOption(cells, x) && OptionSig(t, cells, x) == OptionSig(t, cells, k)
    decreases k
  {
    hide Stems, OptionFits, OptionSig, HeadOk;
    LiveFits(t, c, text, cells, live, k);
    if cells[k].next != NULL { LiveChain(t, c, text, cells, live, cells[k].next); }
  }

  lemma LiveFits(t: Tables, c: Certificate, text: seq<nat>, cells: Cells, live: set<Ref>, k: Ref)
    requires Loose(t, c, text, cells, live) && k in live
    ensures 0 <= k && Stems(t, c, text, cells) && OptionFits(t, c, cells, k) && IsOption(cells, k)
    ensures LinkOk(t, cells, live, k)
  {
    hide Stems;
    assert LiveOk(t, c, cells, live, k);
  }

  /** Changing cells to sound ones keeps the arena sound. */
  lemma LooseStays(t: Tables, c: Certificate, text: seq<nat>, a: Cells, b: Cells, live: set<Ref>)
    requires Loose(t, c, text, a, live) && SameFrame(a, b)
    requires forall i | IsState(b, i) && b[i] != a[i] :: StemOk(t, c, text, b, i) && HeadOk(t, b, live, i)
    requires forall k | k in live && IsOption(b, k) && b[k] != a[k] :: LinkOk(t, b, live, k)
    ensures Loose(t, c, text, b, live)
  {
    hide Checked, StemOk, OptionFits, OptionSig, StateSig;
    assert CellFrame(a[0], b[0]);
    forall i | IsState(b, i)
      ensures StemOk(t, c, text, b, i) && HeadOk(t, b, live, i)
    {
      if b[i] == a[i] { StateStays(t, c, text, a, b, live, i); }
    }
    forall k | k in live
      ensures LiveOk(t, c, b, live, k)
    {
      assert LiveOk(t, c, a, live, k);
      OptionStays(t, c, text, a, b, live, k);
    }
  }

  lemma StateStays(t: Tables, c: Certificate, text: seq<nat>, a: Cells, b: Cells, live: set<Ref>, i: Ref)
    requires Loose(t, c, text, a, live) && SameFrame(a, b) && IsState(b, i) && b[i] == a[i]
    ensures StemOk(t, c, text, b, i) && HeadOk(t, b, live, i)
  {
    hide Checked, Edge, Spans, DerivesSpan, OptionFits, LinkOk, OptionSig;
    assert StemOk(t, c, text, a, i) && HeadOk(t, a, live, i);
    SigFrame(t, c, a, b, i);
    if i > 0 { assert CellFrame(a[a[i].pred], b[a[i].pred]); }
    if a[i].sem.Chain? { SigFrame(t, c, a, b, a[i].sem.first); }
  }

  lemma OptionStays(t: Tables, c: Certificate, text: seq<nat>, a: Cells, b: Cells, live: set<Ref>, k: Ref)
    requires SameFrame(a, b) && LiveOk(t, c, a, live, k)
    requires k in live && IsOption(b, k) && b[k] != a[k] ==> LinkOk(t, b, live, k)
    requires k in live
    ensures LiveOk(t, c, b, live, k)
  {
    hide OptionFits, OptionSig;
    assert IsOption(a, k) by { FitsOption(t, c, a, k); }
    SigFrame(t, c, a, b, k);
    assert CellFrame(a[k], b[k]);
    var n := a[k].next;
    if n != NULL {
      SigFrame(t, c, a, b, n);
    }
  }

  lemma FitsOption(t: Tables, c: Certificate, a: Cells, k: Ref)
    requires OptionFits(t, c, a, k)
    ensures IsOption(a, k) && a[k].rule < |t.r1| && a[k].rule < |t.r2|
  {
  }

  /** A state takes over the value of a state of the same signature. */
  lemma {:induction false} CopyValue(t: Tables, c: Certificate, text: seq<nat>, a: Cells, live: set<Ref>, i: Ref,
                                     j: Ref)
    requires Loose(t, c, text, a, live) && IsState(a, i) && IsState(a, j) && i > 0 && j > 0 && a[i].sem.Val?
    requires StateSig(t, a, i) == StateSig(t, a, j)
    ensures Loose(t, c, text, a[j := a[j].(sem := a[i].sem)], live)
    ensures SameFrame(a, a[j := a[j].(sem := a[i].sem)])
  {
    hide Checked, Edge, Spans, DerivesSpan, OptionFits, LinkOk, OptionSig;
    var b := a[j := a[j].(sem := a[i].sem)];
    assert StemOk(t, c, text, a, i) && StemOk(t, c, text, a, j);
    assert StemOk(t, c, text, b, j);
    hide StemOk;
    LooseStays(t, c, text, a, b, live);
  }

  /** After two chains of the same signature have been merged. */
  lemma MergedLoose(t: Tables, c: Certificate, text: seq<nat>, a: Cells, b: Cells, live: set<Ref>, s0: Ref, s1: Ref)
    requires Loose(t, c, text, a, live) && IsState(a, s0) && IsState(a, s1) && a[s0].sem.Chain? && a[s1].sem.Chain?
    requires StateSig(t, a, s0) == StateSig(t, a, s1)
    requires var x := ChainOf(a, a[s0].sem.first); var y := ChainOf(a, a[s1].sem.first);
      && OnlyLinks(a, b, s0, s1, x, y)
      && IsState(b, s0) && IsState(b, s1) && b[s0].sem.Chain? && b[s1].sem == b[s0].sem
      && Chained(b, b[s0].sem.first)
      && forall z :: z in ChainOf(b, b[s0].sem.first) <==> z in x || z in y
    ensures Loose(t, c, text, b, live) && SameFrame(a, b)
    ensures forall i | 0 <= i < |a| && b[i] != a[i] ::
      i == s0 || i == s1 || (IsOption(a, i) && OptionSig(t, a, i) == StateSig(t, a, s0))
  {
    hide Checked, Stems, StemOk, OptionFits, LinkOk, OptionSig, StateSig;
    var x := ChainOf(a, a[s0].sem.first); var y := ChainOf(a, a[s1].sem.first);
    assert HeadOk(t, a, live, s0) && HeadOk(t, a, live, s1);
    LiveChain(t, c, text, a, live, a[s0].sem.first);
    LiveChain(t, c, text, a, live, a[s1].sem.first);
    assert SameFrame(a, b);
    var first := b[s0].sem.first;
    MergedHead(t, c, text, a, b, live, s0, s1);
    forall k | k in live && IsOption(b, k) && b[k] != a[k]
      ensures LinkOk(t, b, live, k)
    {
      MergedLink(t, c, a, b, live, s0, first, k);
    }
    forall i | IsState(b, i) && b[i] != a[i]
      ensures StemOk(t, c, text, b, i) && HeadOk(t, b, live, i)
    {
      MergedState(t, c, text, a, b, live, i, first);
      SigFrame(t, c, a, b, i);
    }
    LooseStays(t, c, text, a, b, live);
  }

  lemma MergedHead(t: Tables, c: Certificate, text: seq<nat>, a: Cells, b: Cells, live: set<Ref>, s0: Ref, s1: Ref)
    requires SameFrame(a, b) && IsState(a, s0) && IsState(b, s0) && a[s0].sem.Chain? && b[s0].sem.Chain?
    requires a[s0].sem.first in ChainOf(b, b[s0].sem.first) && Chained(b, b[s0].sem.first)
    requires forall z | z in ChainOf(b, b[s0].sem.first) ::
      z in live && IsOption(a, z) && OptionSig(t, a, z) == StateSig(t, a, s0)
    ensures var k := b[s0].sem.first; k in live && IsOption(b, k) && OptionSig(t, b, k) == StateSig(t, a, s0)
  {
    hide OptionSig, StateSig, OptionFits;
    var k := b[s0].sem.first;
    assert k in ChainOf(b, k);
    SigFrame(t, c, a, b, k);
  }

  /** The links on a merged chain lead along the chain. */
  lemma MergedLink(t: Tables, c: Certificate, a: Cells, b: Cells, live: set<Ref>, s0: Ref, first: Ref, k: Ref)
    requires SameFrame(a, b) && IsState(a, s0) && Chained(b, first) && k in ChainOf(b, first)
    requires forall z | z in ChainOf(b, first) ::
      z in live && IsOption(a, z) && OptionSig(t, a, z) == StateSig(t, a, s0)
    ensures IsOption(b, k) && LinkOk(t, b, live, k)
  {
    hide OptionSig, StateSig, OptionFits;
    NextOnChain(b, first, k);
    SigFrame(t, c, a, b, k);
    var n := b[k].next;
    if n != NULL { SigFrame(t, c, a, b, n); }
  }

  lemma {:induction false} NextOnChain(cells: Cells, first: Ref, k: Ref)
    requires Chained(cells, first) && k in ChainOf(cells, first)
    ensures IsOption(cells, k) && cells[k].next < k && (cells[k].next == NULL || cells[k].next in ChainOf(cells, first))
    decreases first
  {
    if k != first { NextOnChain(cells, cells[first].next, k); }
  }

  lemma MergedState(t: Tables, c: Certificate, text: seq<nat>, a: Cells, b: Cells, live: set<Ref>, i: Ref, first: Ref)
    requires Loose(t, c, text, a, live) && SameFrame(a, b) && IsState(a, i) && IsState(b, i)
    requires a[i].sem.Chain? && b[i].sem == Chain(first)
    ensures StemOk(t, c, text, b, i)
  {
    hide Checked, Edge, Spans, DerivesSpan, OptionFits, OptionSig, StateSig, LinkOk;
    assert StemOk(t, c, text, a, i);
    assert CellFrame(a[i], b[i]);
    if i > 0 { assert CellFrame(a[a[i].pred], b[a[i].pred]); }
  }

  /** `yyidenticalOptions`: the same rule, and right-hand sides whose states end at the same positions. */
  predicate Identical(t: Tables, cells: Cells, y0: Ref, y1: Ref)
    requires IsOption(cells, y0) && IsOption(cells, y1) && cells[y0].rule < |t.r2|
  {
    && cells[y0].rule == cells[y1].rule
    && forall d | 0 <= d < t.r2[cells[y0].rule] ::
       SamePosn(cells, Climb(cells, cells[y0].rhs, d), Climb(cells, cells[y1].rhs, d))
  }

  predicate SamePosn(cells: Cells, i: Ref, j: Ref) {
    IsState(cells, i) && IsState(cells, j) && cells[i].posn == cells[j].posn
  }

  /** The accessing symbol of a state of a right-hand side. */
  lemma RhsSymbol(t: Tables, c: Certificate, text: seq<nat>, cells: Cells, k: Ref, d: nat)
    requires Stems(t, c, text, cells) && OptionFits(t, c, cells, k) && d < t.r2[cells[k].rule]
    ensures var s := Climb(cells, cells[k].rhs, d);
      && IsState(cells, s) && |c.g[cells[k].rule].rhs| == t.r2[cells[k].rule]
      && Symbol(t, cells[s].lr) == c.g[cells[k].rule].rhs[t.r2[cells[k].rule] - 1 - d]
  {
    hide Stems, Forest, Checked, Path, Edge;
    var full := Fill(t, c, text, cells);
    var o := cells[k];
    SigFrame(t, c, cells, full, k);
    assert CellFrame(cells[k], full[k]);
    RhsPath(t, c, text, full, k);
    ClimbFrame(cells, full, o.rhs, d);
    ClimbPath(t, c, text, full, o.rhs, d);
    var s := Climb(full, o.rhs, d);
    var path := Path(full, o.rhs);
    PathOk(t, c, text, full, s);
    assert CellFrame(cells[s], full[s]);
    assert Symbols(t, path)[|path| - 1 - t.r2[o.rule]..][t.r2[o.rule] - 1 - d] == Symbol(t, path[|path| - 1 - d]);
  }

  /** Corresponding states of identical options have the same signature, and rank below the options. */
  lemma Twins(t: Tables, c: Certificate, text: seq<nat>, cells: Cells, y0: Ref, y1: Ref, d: nat)
    requires Stems(t, c, text, cells) && OptionFits(t, c, cells, y0) && OptionFits(t, c, cells, y1) && !Cyclic(c.g)
    requires Identical(t, cells, y0, y1) && OptionSig(t, cells, y0) == OptionSig(t, cells, y1)
    requires d < t.r2[cells[y0].rule]
    ensures var s0 := Climb(cells, cells[y0].rhs, d); var s1 := Climb(cells, cells[y1].rhs, d);
      && IsState(cells, s0) && IsState(cells, s1) && s0 > 0 && s1 > 0
      && StateSig(t, cells, s0) == StateSig(t, cells, s1)
      && RankAt(t, c, cells, s0) < RankAt(t, c, cells, y0)
      && cells[s0].pred == Climb(cells, cells[y0].rhs, d + 1) && cells[s1].pred == Climb(cells, cells[y1].rhs, d + 1)
  {
    hide Stems, OptionFits, Cyclic, RankAt;
    FitsOption(t, c, cells, y0);
    FitsOption(t, c, cells, y1);
    RhsSymbol(t, c, text, cells, y0, d);
    RhsSymbol(t, c, text, cells, y1, d);
    RhsRank(t, c, text, cells, y0, d);
    RhsState(t, c, text, cells, y0, d);
    RhsState(t, c, text, cells, y1, d);
    var s0 := Climb(cells, cells[y0].rhs, d); var s1 := Climb(cells, cells[y1].rhs, d);
    assert SamePosn(cells, s0, s1);
    if d + 1 < t.r2[cells[y0].rule] {
      assert SamePosn(cells, Climb(cells, cells[y0].rhs, d + 1), Climb(cells, cells[y1].rhs, d + 1));
    }
  }

  /** Two states made to agree: one takes over the value of the other, or both get the merge of their chains. */
  function Agreed(cells: Cells, s0: Ref, s1: Ref): Cells {
    if !IsState(cells, s0) || !IsState(cells, s1) then cells
    else if cells[s0].sem.Val? then cells[s1 := cells[s1].(sem := cells[s0].sem)]
    else if cells[s1].sem.Val? then cells[s0 := cells[s0].(sem := cells[s1].sem)]
    else if cells[s0].sem.Chain? && cells[s1].sem.Chain? then Joined(cells, s0, s1)
    else cells
  }

  /** One pair of states after the other from `s0` and `s1` down, until `n` pairs are done or they meet. */
  function AgreedDown(cells: Cells, s0: Ref, s1: Ref, n: nat): Cells
    decreases n
  {
    if n == 0 || s0 == s1 || !IsState(cells, s0) || !IsState(cells, s1) then cells
    else AgreedDown(Agreed(cells, s0, s1), cells[s0].pred, cells[s1].pred, n - 1)
  }

  /** The right-hand sides of two options made to agree. */
  function SetsAgreed(t: Tables, cells: Cells, y0: Ref, y1: Ref): Cells {
    if !IsOption(cells, y0) || !IsOption(cells, y1) || cells[y0].rule >= |t.r2| then cells
    else AgreedDown(cells, cells[y0].rhs, cells[y1].rhs, t.r2[cells[y0].rule])
  }

  /** Both states have options: the chains are merged. */
  method MergeHeads(cells: array<Cell>, s0: Ref, s1: Ref, ghost t: Tables, ghost c: Certificate, ghost text: seq<nat>,
                    ghost live: set<Ref>, ghost rank: nat)
    requires Loose(t, c, text, cells[..], live)
    requires IsState(cells[..], s0) && IsState(cells[..], s1) && s0 > 0 && s1 > 0 && s0 != s1
    requires cells[s0].sem.Chain? && cells[s1].sem.Chain?
    requires StateSig(t, cells[..], s0) == StateSig(t, cells[..], s1) && RankAt(t, c, cells[..], s0) < rank
    modifies cells
    ensures Loose(t, c, text, cells[..], live) && Kept(t, c, old(cells[..]), cells[..], rank)
    ensures cells[..] == Agreed(old(cells[..]), s0, s1)
  {
    hide Loose, RankOf, RankAt, Chained, ChainOf, MergeDown, StateSig, OptionSig, LinkOk, Kept, SameFrame;
    ghost var before := cells[..];
    SameSigRank(t, c, before, s0);
    HeadChain(t, c, text, before, live, s0);
    HeadChain(t, c, text, before, live, s1);
    MergeChains(cells, s0, s1);
    MergedLoose(t, c, text, before, cells[..], live, s0, s1);
    MergedKept(t, c, before, cells[..], s0, s1, rank);
  }

  /** The body of the loop of `yymergeOptionSets`. */
  method MergeStates(cells: array<Cell>, s0: Ref, s1: Ref, ghost t: Tables, ghost c: Certificate, ghost text: seq<nat>,
                     ghost live: set<Ref>, ghost rank: nat)
    requires Loose(t, c, text, cells[..], live)
    requires IsState(cells[..], s0) && IsState(cells[..], s1) && s0 > 0 && s1 > 0 && s0 != s1
    requires StateSig(t, cells[..], s0) == StateSig(t, cells[..], s1) && RankAt(t, c, cells[..], s0) < rank
    modifies cells
    ensures Loose(t, c, text, cells[..], live) && Kept(t, c, old(cells[..]), cells[..], rank)
    ensures cells[..] == Agreed(old(cells[..]), s0, s1)
  {
    hide Loose, RankOf, RankAt, Chained, ChainOf, MergeDown, StateSig, OptionSig, LinkOk, Kept, SameFrame;
    ghost var before := cells[..];
    StemKind(t, c, text, before, live, s0);
    StemKind(t, c, text, before, live, s1);
    SameSigRank(t, c, before, s0);
    if cells[s0].sem.Val? {
      CopyValue(t, c, text, before, live, s0, s1);
      cells[s1] := cells[s1].(sem := cells[s0].sem);
      assert cells[..] == before[s1 := before[s1].(sem := before[s0].sem)];
      MergedKept(t, c, before, cells[..], s0, s1, rank);
    } else if cells[s1].sem.Val? {
      CopyValue(t, c, text, before, live, s1, s0);
      cells[s0] := cells[s0].(sem := cells[s1].sem);
      assert cells[..] == before[s0 := before[s0].(sem := before[s1].sem)];
      MergedKept(t, c, before, cells[..], s0, s1, rank);
    } else {
      MergeHeads(cells, s0, s1, t, c, text, live, rank);
    }
  }

  lemma SameSigRank(t: Tables, c: Certificate, cells: Cells, s0: Ref)
    requires IsState(cells, s0)
    ensures forall i | IsState(cells, i) && StateSig(t, cells, i) == StateSig(t, cells, s0) ::
      RankAt(t, c, cells, i) == RankAt(t, c, cells, s0)
    ensures forall k | IsOption(cells, k) && OptionSig(t, cells, k) == StateSig(t, cells, s0) ::
      RankAt(t, c, cells, k) == RankAt(t, c, cells, s0)
  {
    hide StateSig, OptionSig, RankOf;
  }

  lemma MergedKept(t: Tables, c: Certificate, a: Cells, b: Cells, s0: Ref, s1: Ref, rank: nat)
    requires SameFrame(a, b) && IsState(a, s0) && IsState(a, s1)
    requires RankAt(t, c, a, s0) < rank && RankAt(t, c, a, s1) < rank
    requires forall i | 0 <= i < |a| && b[i] != a[i] ::
      i == s0 || i == s1 || (IsOption(a, i) && RankAt(t, c, a, i) < rank)
    requires forall i | i == s0 || i == s1 :: IsState(b, i) && (a[i].sem.Val? ==> b[i].sem.Val?)
    ensures Kept(t, c, a, b, rank)
  {
    hide RankAt;
  }

  lemma StemKind(t: Tables, c: Certificate, text: seq<nat>, cells: Cells, live: set<Ref>, i: Ref)
    requires Loose(t, c, text, cells, live) && IsState(cells, i)
    ensures !cells[i].sem.Clobbered?
    ensures Stems(t, c, text, cells)
  {
    hide Checked, Edge, Spans, DerivesSpan, HeadOk, LiveOk;
    assert StemOk(t, c, text, cells, i);
  }

  lemma HeadChain(t: Tables, c: Certificate, text: seq<nat>, cells: Cells, live: set<Ref>, i: Ref)
    requires Loose(t, c, text, cells, live) && IsState(cells, i) && cells[i].sem.Chain?
    ensures Chained(cells, cells[i].sem.first)
    ensures cells[i].sem.first in live && IsOption(cells, cells[i].sem.first)
    ensures forall x | x in ChainOf(cells, cells[i].sem.first) ::
      x in live && IsOption(cells, x) && OptionSig(t, cells, x) == StateSig(t, cells, i)
  {
    hide Stems, LiveOk, StateSig, OptionSig;
    assert HeadOk(t, cells, live, i);
    LiveChain(t, c, text, cells, live, cells[i].sem.first);
  }

  /** `yymergeOptionSets`. */
  method MergeOptionSets(cells: array<Cell>, t: Tables, y0: Ref, y1: Ref, ghost c: Certificate, ghost text: seq<nat>,
                         ghost live: set<Ref>)
    requires Loose(t, c, text, cells[..], live) && !Cyclic(c.g)
    requires y0 in live && y1 in live && IsOption(cells[..], y0) && IsOption(cells[..], y1) && cells[y0].rule < |t.r2|
    requires Identical(t, cells[..], y0, y1) && OptionSig(t, cells[..], y0) == OptionSig(t, cells[..], y1)
    modifies cells
    ensures Loose(t, c, text, cells[..], live)
    ensures Kept(t, c, old(cells[..]), cells[..], RankAt(t, c, old(cells[..]), y0))
    ensures cells[..] == SetsAgreed(t, old(cells[..]), y0, y1)
  {
    hide Loose, Cyclic, RankAt, OptionFits, StateSig, OptionSig, Kept, Stems, Identical, LinkOk, Agreed;
    ghost var before := cells[..];
    ghost var rank := RankAt(t, c, before, y0);
    LiveFits(t, c, text, before, live, y0);
    LiveFits(t, c, text, before, live, y1);
    KeptSelf(t, c, before, rank);
    var rhs0, rhs1 := cells[y0].rhs, cells[y1].rhs;
    var s0, s1, n := rhs0, rhs1, t.r2[cells[y0].rule];
    ghost var d: nat := 0;
    while n > 0
      invariant d + n == t.r2[before[y0].rule]
      invariant AgreedDown(before, rhs0, rhs1, t.r2[before[y0].rule]) == AgreedDown(cells[..], s0, s1, n)
      invariant s0 == Climb(before, rhs0, d) && s1 == Climb(before, rhs1, d)
      invariant Loose(t, c, text, cells[..], live) && Kept(t, c, before, cells[..], rank)
    {
      ghost var now := cells[..];
      Twins(t, c, text, before, y0, y1, d);
      KeptSigs(t, c, before, now, rank, s0);
      KeptSigs(t, c, before, now, rank, s1);
      if s0 == s1 {
        break;
      }
      MergeStates(cells, s0, s1, t, c, text, live, rank);
      KeptTrans(t, c, before, now, cells[..], rank, rank);
      KeptSigs(t, c, before, cells[..], rank, s0);
      KeptSigs(t, c, before, cells[..], rank, s1);
      s0, s1, n := cells[s0].pred, cells[s1].pred, n - 1;
      d := d + 1;
    }
  }

  lemma KeptSelf(t: Tables, c: Certificate, cells: Cells, rank: nat)
    ensures Kept(t, c, cells, cells, rank)
  {
  }

  lemma KeptSigs(t: Tables, c: Certificate, a: Cells, b: Cells, rank: nat, i: Ref)
    requires Kept(t, c, a, b, rank) && 0 <= i < |a|
    ensures |b| == |a| && SameFrame(a, b) && CellFrame(a[i], b[i])
    ensures RankAt(t, c, b, i) == RankAt(t, c, a, i)
    ensures IsState(a, i) ==> IsState(b, i) && StateSig(t, b, i) == StateSig(t, a, i) && b[i].pred == a[i].pred
    ensures IsOption(a, i) ==> IsOption(b, i) && OptionSig(t, b, i) == OptionSig(t, a, i)
    ensures OptionFits(t, c, b, i) == OptionFits(t, c, a, i)
    ensures rank <= RankAt(t, c, a, i) ==> b[i] == a[i]
  {
    hide RankAt, OptionFits, StateSig, OptionSig;
    RankFrame(t, c, a, b);
    SigFrame(t, c, a, b, i);
  }
}
