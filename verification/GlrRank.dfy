/** A rank under which the states of the right-hand side of an option come before the state whose
    option it is, for grammars that are not cyclic. */
module GlrRank {
  import opened Grammar
  import opened LrTables
  import opened GlrForest
  import opened GlrOptions
  import opened GlrLoose
  import opened UnitSteps

  /** A bound on the accessing symbols. */
  function Bound(stos: seq<nat>): (n: nat)
    ensures forall x | x in stos :: x < n
    ensures n > 0
  {
    if stos == [] then 1
    else
      var n := Bound(stos[..|stos| - 1]);
      var x := stos[|stos| - 1];
      assert stos == stos[..|stos| - 1] + [x];
      if x < n then n else x + 1
  }

  /** Longer spans first, then symbols that reach more. */
  ghost function Rank(t: Tables, c: Certificate, sig: Signature): nat
    requires sig.from <= sig.to
  {
    (sig.to - sig.from) * (Bound(t.stos) + 1) + |Reach(c.g, sig.symbol, Bound(t.stos))|
  }

  /** The rank of a cell, which does not depend on values or links. */
  ghost function RankAt(t: Tables, c: Certificate, cells: Cells, i: Ref): nat {
    if IsState(cells, i) then RankOf(t, c, StateSig(t, cells, i))
    else if IsOption(cells, i) then RankOf(t, c, OptionSig(t, cells, i))
    else 0
  }

  ghost function RankOf(t: Tables, c: Certificate, sig: Signature): nat {
    if sig.from <= sig.to then Rank(t, c, sig) else 0
  }

  lemma RankSpan(t: Tables, c: Certificate, x: Signature, y: Signature)
    requires x.from <= x.to && y.from <= y.to && y.to - y.from < x.to - x.from
    ensures Rank(t, c, y) < Rank(t, c, x)
  {
    hide Reach, Bound;
    var n := Bound(t.stos) + 1;
    ReachSize(c.g, y.symbol, Bound(t.stos));
    Multiples(y.to - y.from, x.to - x.from, n);
  }

  lemma Multiples(a: int, b: int, n: nat)
    requires a < b
    ensures a * n + n <= b * n
  {
    assert (a + 1) * n <= b * n;
  }

  lemma RankStep(t: Tables, c: Certificate, x: Signature, y: Signature)
    requires x.from <= x.to && y.from == x.from && y.to == x.to && !Cyclic(c.g)
    requires Steps(c.g, x.symbol, y.symbol) && y.symbol < Bound(t.stos)
    ensures Rank(t, c, y) < Rank(t, c, x)
  {
    hide Reach, Bound, Cyclic, Steps;
    ReachShrinks(c.g, x.symbol, y.symbol, Bound(t.stos));
  }

  /** Climbing over a state: derivations of the tokens before it, the state's symbol itself, and
      derivations of the tokens after it. */
  lemma {:induction false} UnitForm(t: Tables, c: Certificate, text: seq<nat>, cells: Cells, i: Ref, n: nat, d: nat)
    returns (kids: seq<Tree>)
    requires Forest(t, c, text, cells) && IsState(cells, i) && d < n < |Path(cells, i)|
    ensures var s := Climb(cells, i, d); var base := Climb(cells, i, n);
      && IsState(cells, s) && IsState(cells, base) && s > 0 && IsState(cells, cells[s].pred)
      && cells[base].posn <= cells[cells[s].pred].posn <= cells[s].posn <= cells[i].posn
      && Yields(kids) ==
         Span(text, cells[base].posn, cells[cells[s].pred].posn) + [Symbol(t, cells[s].lr)]
         + Span(text, cells[s].posn, cells[i].posn)
    ensures Derivations(c.g, kids) && Roots(c.g, kids, Symbols(t, Path(cells, i))[|Path(cells, i)| - 1 - n..])
    decreases n
  {
    hide Forest, Path, Edge, Symbols, Derivations, Roots, Yields, DerivesSpan, Span;
    Below(t, c, text, cells, i);
    ClimbPath(t, c, text, cells, i, d);
    ClimbPath(t, c, text, cells, i, n);
    var q := cells[i].pred;
    var x := Symbol(t, cells[i].lr);
    SymbolsTail(t, Path(cells, q), cells[i].lr, n);
    var symbols := Symbols(t, Path(cells, q))[|Path(cells, q)| - n..];
    if d == 0 {
      var below := ClimbDerives(t, c, text, cells, q, n - 1);
      kids := below + [Leaf(x)];
      AppendLeaf(c, below, symbols, x);
      EmptySpan(text, cells[i].posn);
      assert Yields(kids) == Yields(below) + [x] + [];
    } else {
      var v := StepDown(t, c, text, cells, i);
      var below := UnitForm(t, c, text, cells, q, n - 1, d - 1);
      kids := below + [v];
      SpanTree(c, v, x, text, cells[q].posn, cells[i].posn);
      AppendTree(c, below, symbols, v, x);
      var s := Climb(cells, i, d);
      SpanJoins(text, cells[s].posn, cells[q].posn, cells[i].posn);
      assert Yields(kids) ==
        Span(text, cells[Climb(cells, i, n)].posn, cells[cells[s].pred].posn) + [Symbol(t, cells[s].lr)]
        + (Span(text, cells[s].posn, cells[q].posn) + Span(text, cells[q].posn, cells[i].posn));
    }
  }

  /** What an option's right-hand side looks like: its length fits the path, and its symbols are those
      of the rule. */
  lemma RhsPath(t: Tables, c: Certificate, text: seq<nat>, cells: Cells, k: Ref)
    requires Forest(t, c, text, cells) && OptionFits(t, c, cells, k)
    ensures RulesMatch(t, c)
    ensures var o := cells[k]; var path := Path(cells, o.rhs);
      && ReductionSound(t, c, cells[o.rhs].lr, o.rule)
      && t.r2[o.rule] < |path| && Symbols(t, path)[|path| - 1 - t.r2[o.rule]..] == c.g[o.rule].rhs
  {
    hide Forest, Checked, Symbols, Path;
    ForestChecked(t, c, text, cells);
    var o := cells[k];
    PathOk(t, c, text, cells, o.rhs);
    ReduceOnPath(t, c, Path(cells, o.rhs), o.rule);
  }

  /** A state of the right-hand side of an option: it lies within the span of the option, and if its
      own span is the same, the left-hand side derives its symbol alone. */
  lemma RhsState(t: Tables, c: Certificate, text: seq<nat>, cells: Cells, k: Ref, d: nat)
    requires Stems(t, c, text, cells) && OptionFits(t, c, cells, k) && d < t.r2[cells[k].rule]
    ensures var o := cells[k]; var s := Climb(cells, o.rhs, d);
      && IsState(cells, s) && s > 0 && IsState(cells, cells[s].pred)
      && Climb(cells, o.rhs, d + 1) == cells[s].pred
      && var x := OptionSig(t, cells, k); var y := StateSig(t, cells, s);
        && x.from <= y.from <= y.to <= x.to
        && y.symbol < Bound(t.stos)
        && (x.from == y.from && x.to == y.to ==> Steps(c.g, x.symbol, y.symbol))
  {
    hide Stems, Forest, Checked, Path, Symbols, Derivations, Yields, Roots, Span, Edge, DerivesSpan;
    var full := Fill(t, c, text, cells);
    var o := cells[k];
    var n := t.r2[o.rule];
    SigFrame(t, c, cells, full, k);
    assert CellFrame(cells[k], full[k]);
    RhsPath(t, c, text, full, k);
    ClimbFrame(cells, full, o.rhs, d);
    ClimbFrame(cells, full, o.rhs, n);
    var kids := UnitForm(t, c, text, full, o.rhs, n, d);
    var s := Climb(cells, o.rhs, d);
    ClimbStep(cells, o.rhs, d);
    SigFrame(t, c, cells, full, s);
    SymbolBound(t, c, text, full, s);
    var x, y := OptionSig(t, cells, k), StateSig(t, cells, s);
    if x.from == y.from && x.to == y.to {
      EmptySpan(text, OptionSig(t, cells, k).from);
      EmptySpan(text, OptionSig(t, cells, k).to);
      OneStep(t, c, o.rule, kids, Symbol(t, full[s].lr));
    }
  }

  lemma OneStep(t: Tables, c: Certificate, r: nat, kids: seq<Tree>, b: nat)
    requires RulesMatch(t, c) && t.IsRule(r)
    requires Derivations(c.g, kids) && Roots(c.g, kids, c.g[r].rhs) && Yields(kids) == [] + [b] + []
    ensures Steps(c.g, t.r1[r], b)
  {
    assert UnitTree(c.g, t.r1[r], b, Node(r, kids));
  }

  lemma SymbolBound(t: Tables, c: Certificate, text: seq<nat>, cells: Cells, i: Ref)
    requires Forest(t, c, text, cells) && IsState(cells, i)
    ensures Symbol(t, cells[i].lr) < Bound(t.stos)
  {
    StateInRange(t, c, text, cells, i);
    ForestChecked(t, c, text, cells);
    hide Forest, Checked;
    assert t.stos[cells[i].lr] in t.stos;
  }

  lemma {:induction false} ClimbStep(cells: Cells, i: Ref, d: nat)
    ensures IsState(cells, Climb(cells, i, d)) ==> Climb(cells, i, d + 1) == cells[Climb(cells, i, d)].pred
    decreases d
  {
    if d > 0 && IsState(cells, i) { ClimbStep(cells, cells[i].pred, d - 1); }
  }

  /** The states of a right-hand side rank below the option. */
  lemma RhsRank(t: Tables, c: Certificate, text: seq<nat>, cells: Cells, k: Ref, d: nat)
    requires Stems(t, c, text, cells) && OptionFits(t, c, cells, k) && d < t.r2[cells[k].rule] && !Cyclic(c.g)
    ensures var s := Climb(cells, cells[k].rhs, d);
      && IsState(cells, s) && s > 0 && RankAt(t, c, cells, s) < RankAt(t, c, cells, k)
  {
    hide Stems, Cyclic, Steps, Rank, OptionSig, StateSig;
    RhsState(t, c, text, cells, k, d);
    var x, y := OptionSig(t, cells, k), StateSig(t, cells, Climb(cells, cells[k].rhs, d));
    if y.to - y.from < x.to - x.from { RankSpan(t, c, x, y); } else { RankStep(t, c, x, y); }
  }

  lemma RankFrame(t: Tables, c: Certificate, a: Cells, b: Cells)
    requires SameFrame(a, b)
    ensures forall i :: RankAt(t, c, a, i) == RankAt(t, c, b, i)
  {
    hide RankOf;
    forall i
      ensures RankAt(t, c, a, i) == RankAt(t, c, b, i)
    {
      if 0 <= i < |a| { SigFrame(t, c, a, b, i); }
    }
  }
}
