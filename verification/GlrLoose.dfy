/** What holds of the arena while deferred values are resolved.  `yymergeOptionSets` may hang an option
    on a state with another predecessor, as long as the symbol and both positions agree; so the exact
    invariant of the nondeterministic phase gives way to one that compares positions. */
module GlrLoose {
  import opened Grammar
  import opened LrTables
  import opened GlrForest
  import opened GlrOptions
  import opened UnitSteps

  /** A symbol and the positions between which it is derived. */
  datatype Signature = Signature(symbol: nat, from: nat, to: nat)

  function StateSig(t: Tables, cells: Cells, i: Ref): Signature
    requires IsState(cells, i)
  {
    Signature(Symbol(t, cells[i].lr),
              if IsState(cells, cells[i].pred) then cells[cells[i].pred].posn else 0, cells[i].posn)
  }

  /** The right-hand side of an option is complete on the stack. */
  ghost predicate OptionFits(t: Tables, c: Certificate, cells: Cells, k: Ref) {
    && IsOption(cells, k)
    && var o := cells[k];
    && t.Sized() && t.IsRule(o.rule) && o.rule != ACCEPT && o.rule < |c.g|
    && IsState(cells, o.rhs) && cells[o.rhs].lr < t.NStates()
    && HasItem(c, cells[o.rhs].lr, Item(o.rule, |c.g[o.rule].rhs|))
    && IsState(cells, Climb(cells, o.rhs, t.r2[o.rule]))
  }

  function OptionSig(t: Tables, cells: Cells, k: Ref): Signature
    requires IsOption(cells, k)
  {
    var o := cells[k];
    if o.rule < |t.r1| && o.rule < |t.r2| && IsState(cells, o.rhs) &&
      IsState(cells, Climb(cells, o.rhs, t.r2[o.rule])) then
      Signature(t.r1[o.rule], cells[Climb(cells, o.rhs, t.r2[o.rule])].posn, cells[o.rhs].posn)
    else Signature(0, 0, 0)
  }

  /** A state as in `StateOk`, whatever its options are. */
  ghost predicate StemOk(t: Tables, c: Certificate, text: seq<nat>, cells: Cells, i: Ref)
    requires IsState(cells, i)
  {
    var s := cells[i];
    if i == 0 then s.pred == NULL && s.lr == 0 && s.posn == 0 && s.sem.Val?
    else
      && IsState(cells, s.pred) && s.pred < i && cells[s.pred].posn <= s.posn
      && |c.items| == |t.stos| && Edge(t, c, cells[s.pred].lr, Symbol(t, s.lr), s.lr)
      && Spans(c, Symbol(t, s.lr), text, cells[s.pred].posn, s.posn)
      && match s.sem
         case Val(v) => DerivesSpan(c, v, Symbol(t, s.lr), text, cells[s.pred].posn, s.posn)
         case Chain(_) => true
         case Clobbered(_) => false
  }

  ghost predicate Stems(t: Tables, c: Certificate, text: seq<nat>, cells: Cells) {
    && Checked(t, c)
    && IsState(cells, 0)
    && forall i | IsState(cells, i) :: StemOk(t, c, text, cells, i)
  }

  /** The next option of a live one is live, at a lower address, and of the same signature. */
  ghost predicate LinkOk(t: Tables, cells: Cells, live: set<Ref>, k: Ref)
    requires IsOption(cells, k)
  {
    var n := cells[k].next;
    n == NULL || (n in live && n < k && IsOption(cells, n) && OptionSig(t, cells, n) == OptionSig(t, cells, k))
  }

  /** The first option of an unresolved state is live and of the signature of the state. */
  ghost predicate HeadOk(t: Tables, cells: Cells, live: set<Ref>, i: Ref)
    requires IsState(cells, i)
  {
    match cells[i].sem
    case Chain(k) => k in live && IsOption(cells, k) && OptionSig(t, cells, k) == StateSig(t, cells, i)
    case _ => true
  }

  ghost predicate LiveOk(t: Tables, c: Certificate, cells: Cells, live: set<Ref>, k: Ref) {
    OptionFits(t, c, cells, k) && LinkOk(t, cells, live, k)
  }

  /** The invariant of the resolution of values; `live` holds the options in use. */
  ghost predicate Loose(t: Tables, c: Certificate, text: seq<nat>, cells: Cells, live: set<Ref>) {
    && Stems(t, c, text, cells)
    && (forall k | k in live :: LiveOk(t, c, cells, live, k))
    && (forall i | IsState(cells, i) :: HeadOk(t, cells, live, i))
  }

  /** Values, first options and next options aside, nothing differs. */
  ghost predicate SameFrame(a: Cells, b: Cells) {
    && |a| == |b|
    && forall i | 0 <= i < |a| :: CellFrame(a[i], b[i])
  }

  ghost predicate CellFrame(x: Cell, y: Cell) {
    match x
    case StateCell(_, _, _, _) => y.StateCell? && y == x.(sem := y.sem)
    case OptionCell(_, _, _) => y.OptionCell? && y == x.(next := y.next)
  }

  lemma {:induction false} ClimbFrame(a: Cells, b: Cells, i: Ref, n: nat)
    requires SameFrame(a, b)
    ensures Climb(a, i, n) == Climb(b, i, n)
    decreases n
  {
    if n > 0 && IsState(a, i) {
      assert CellFrame(a[i], b[i]);
      ClimbFrame(a, b, a[i].pred, n - 1);
    }
  }

  lemma {:induction false} PathFrame(a: Cells, b: Cells, i: Ref)
    requires SameFrame(a, b)
    ensures Path(a, i) == Path(b, i)
    decreases i
  {
    if IsState(a, i) {
      assert CellFrame(a[i], b[i]);
      if a[i].pred < i { PathFrame(a, b, a[i].pred); }
    }
  }

  lemma SigFrame(t: Tables, c: Certificate, a: Cells, b: Cells, i: Ref)
    requires SameFrame(a, b) && 0 <= i < |a|
    ensures IsState(a, i) == IsState(b, i) && IsOption(a, i) == IsOption(b, i)
    ensures IsState(a, i) ==> StateSig(t, a, i) == StateSig(t, b, i)
    ensures IsOption(a, i) ==> OptionSig(t, a, i) == OptionSig(t, b, i)
    ensures OptionFits(t, c, a, i) == OptionFits(t, c, b, i)
  {
    assert CellFrame(a[i], b[i]);
    if IsState(a, i) {
      var p := a[i].pred;
      if 0 <= p < |a| { assert CellFrame(a[p], b[p]); }
    } else {
      var o := a[i];
      if o.rule < |t.r2| {
        var base := Climb(a, o.rhs, t.r2[o.rule]);
        ClimbFrame(a, b, o.rhs, t.r2[o.rule]);
        if 0 <= o.rhs < |a| { assert CellFrame(a[o.rhs], b[o.rhs]); }
        if 0 <= base < |a| { assert CellFrame(a[base], b[base]); }
      }
    }
  }

  ghost function Witness(c: Certificate, symbol: nat, text: seq<nat>, i: nat, j: nat): (v: Tree)
    requires Spans(c, symbol, text, i, j)
    ensures DerivesSpan(c, v, symbol, text, i, j)
  {
    var v :| DerivesSpan(c, v, symbol, text, i, j); v
  }

  /** The cell with a value of the right kind, if it lacks one. */
  ghost function FilledCell(t: Tables, c: Certificate, text: seq<nat>, cells: Cells, i: nat): Cell
    requires i < |cells|
  {
    var x := cells[i];
    if x.StateCell? && x.sem.Chain? && IsState(cells, x.pred) &&
      Spans(c, Symbol(t, x.lr), text, cells[x.pred].posn, x.posn) then
      x.(sem := Val(Witness(c, Symbol(t, x.lr), text, cells[x.pred].posn, x.posn)))
    else x
  }

  /** Giving every unresolved state some value makes an arena with sound stems a forest. */
  lemma Fill(t: Tables, c: Certificate, text: seq<nat>, cells: Cells) returns (full: Cells)
    requires Stems(t, c, text, cells)
    ensures Forest(t, c, text, full) && SameFrame(cells, full)
    ensures forall i | IsState(cells, i) :: full[i].sem.Val? && (cells[i].sem.Val? ==> full[i] == cells[i])
  {
    hide Checked, Edge, Spans, DerivesSpan, ChainOk;
    full := seq(|cells|, i requires 0 <= i < |cells| => FilledCell(t, c, text, cells, i));
    CheckedMatches(t, c) by { StemsChecked(t, c, text, cells); }
    forall i | IsState(cells, i)
      ensures full[i].sem.Val? && (cells[i].sem.Val? ==> full[i] == cells[i])
    {
      assert StemOk(t, c, text, cells, i);
    }
    forall i | IsState(full, i)
      ensures StateOk(t, c, text, full, i)
    {
      assert StemOk(t, c, text, cells, i);
    }
  }

  lemma StemsChecked(t: Tables, c: Certificate, text: seq<nat>, cells: Cells)
    requires Stems(t, c, text, cells)
    ensures Checked(t, c)
  {
  }

  /** The exact invariant of the nondeterministic phase implies the loose one. */
  lemma ForestIsLoose(t: Tables, c: Certificate, text: seq<nat>, cells: Cells) returns (live: set<Ref>)
    requires Forest(t, c, text, cells)
    ensures Loose(t, c, text, cells, live)
  {
    hide Checked, Edge, Spans, DerivesSpan, ChainOk, OptionOk, OptionFits, LinkOk;
    ForestChecked(t, c, text, cells);
    live := set k: Ref | 0 <= k < |cells| && Owned(t, c, text, cells, k);
    forall i | IsState(cells, i)
      ensures StemOk(t, c, text, cells, i) && HeadOk(t, cells, live, i)
    {
      assert StateOk(t, c, text, cells, i);
      if cells[i].sem.Chain? {
        OwnedHead(t, c, text, cells, i, cells[i].sem.first);
      }
    }
    forall k | k in live
      ensures LiveOk(t, c, cells, live, k)
    {
      OwnedLive(t, c, text, cells, live, k);
    }
  }

  /** Option `k` is on the chain of some unresolved state, and so is what follows it. */
  ghost predicate OwnedBy(t: Tables, c: Certificate, cells: Cells, i: Ref, k: Ref) {
    RulesMatch(t, c) && IsState(cells, i) && i > 0 && k != NULL && ChainOk(t, c, cells, i, k)
  }

  ghost predicate Owned(t: Tables, c: Certificate, text: seq<nat>, cells: Cells, k: Ref) {
    exists i :: OwnedBy(t, c, cells, i, k)
  }

  lemma OwnedHead(t: Tables, c: Certificate, text: seq<nat>, cells: Cells, i: Ref, k: Ref)
    requires RulesMatch(t, c) && IsState(cells, i) && i > 0 && k != NULL && ChainOk(t, c, cells, i, k)
    requires Forest(t, c, text, cells)
    ensures IsOption(cells, k) && OptionSig(t, cells, k) == StateSig(t, cells, i) && Owned(t, c, text, cells, k)
    ensures OptionFits(t, c, cells, k)
  {
    hide Checked, Edge, Spans, DerivesSpan, Forest;
    assert OwnedBy(t, c, cells, i, k);
    assert OptionOk(t, c, cells, i, k);
    OptionTarget(t, c, text, cells, i, k);
    StateInRange(t, c, text, cells, cells[k].rhs);
  }

  lemma StateInRange(t: Tables, c: Certificate, text: seq<nat>, cells: Cells, i: Ref)
    requires Forest(t, c, text, cells) && IsState(cells, i)
    ensures cells[i].lr < t.NStates()
  {
    hide Checked, Spans, DerivesSpan, ChainOk;
    ForestChecked(t, c, text, cells);
    assert StateOk(t, c, text, cells, i);
  }

  /** The left-hand side of an option is the accessing symbol of its state. */
  lemma OptionTarget(t: Tables, c: Certificate, text: seq<nat>, cells: Cells, i: Ref, k: Ref)
    requires Forest(t, c, text, cells) && RulesMatch(t, c) && OptionOk(t, c, cells, i, k)
    ensures t.r1[cells[k].rule] == Symbol(t, cells[i].lr)
  {
    hide Forest, Checked, Edge, Climb;
    ForestChecked(t, c, text, cells);
    var o := cells[k];
    StateInRange(t, c, text, cells, o.rhs);
    var v := ReduceInForest(t, c, text, cells, o.rhs, o.rule);
    EdgeSymbol(t, c, cells[cells[i].pred].lr, t.r1[o.rule], t.Goto(cells[cells[i].pred].lr, t.r1[o.rule]));
  }

  lemma {:induction false} OwnedLive(t: Tables, c: Certificate, text: seq<nat>, cells: Cells, live: set<Ref>, k: Ref)
    requires Forest(t, c, text, cells) && live == (set k: Ref | 0 <= k < |cells| && Owned(t, c, text, cells, k))
    requires k in live
    ensures LiveOk(t, c, cells, live, k)
  {
    hide Checked, Edge, Spans, DerivesSpan, OptionOk, Forest, OptionFits;
    var i :| OwnedBy(t, c, cells, i, k);
    OwnedHead(t, c, text, cells, i, k);
    var n := cells[k].next;
    if n != NULL { OwnedHead(t, c, text, cells, i, n); }
  }
}
