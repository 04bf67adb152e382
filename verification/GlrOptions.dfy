/** `yymergeOptionSets`: the chains of options of two states, linked by decreasing addresses, become
    one chain that both states share. */
module GlrOptions {
  import opened GlrForest

  /** The options chained from `k` on. */
  function ChainOf(cells: Cells, k: Ref): seq<Ref>
    decreases k
  {
    if !IsOption(cells, k) then []
    else [k] + (if cells[k].next < k then ChainOf(cells, cells[k].next) else [])
  }

  /** A chain that ends in NULL. */
  predicate Chained(cells: Cells, k: Ref)
    decreases k
  {
    k == NULL || (IsOption(cells, k) && cells[k].next < k && Chained(cells, cells[k].next))
  }

  predicate Decreasing(a: seq<Ref>) {
    forall i, j | 0 <= i < j < |a| :: a[j] < a[i]
  }

  lemma DecreasingCons(x: Ref, rest: seq<Ref>)
    requires Decreasing(rest) && (forall y | y in rest :: y < x)
    ensures Decreasing([x] + rest)
  {
    forall i, j | 0 <= i < j < |[x] + rest|
      ensures ([x] + rest)[j] < ([x] + rest)[i]
    {
      assert ([x] + rest)[j] == rest[j - 1];
      assert rest[j - 1] in rest;
    }
  }

  lemma {:induction false} ChainDecreases(cells: Cells, k: Ref)
    ensures Decreasing(ChainOf(cells, k))
    ensures forall x | x in ChainOf(cells, k) :: x <= k && IsOption(cells, x)
    decreases k
  {
    if IsOption(cells, k) && cells[k].next < k {
      ChainDecreases(cells, cells[k].next);
      DecreasingCons(k, ChainOf(cells, cells[k].next));
    }
  }

  /** Chains that share an element share what follows it. */
  predicate ShareTails(a: seq<Ref>, b: seq<Ref>) {
    forall i, j | 0 <= i < |a| && 0 <= j < |b| && a[i] == b[j] :: a[i..] == b[j..]
  }

  lemma {:induction false} ChainFrom(cells: Cells, k: Ref, i: nat)
    requires i < |ChainOf(cells, k)|
    ensures ChainOf(cells, k)[i..] == ChainOf(cells, ChainOf(cells, k)[i])
    decreases k
  {
    if i > 0 { ChainFrom(cells, cells[k].next, i - 1); }
  }

  lemma {:induction false} ChainsShareTails(cells: Cells, k0: Ref, k1: Ref)
    ensures ShareTails(ChainOf(cells, k0), ChainOf(cells, k1))
  {
    var a, b := ChainOf(cells, k0), ChainOf(cells, k1);
    forall i, j | 0 <= i < |a| && 0 <= j < |b| && a[i] == b[j]
      ensures a[i..] == b[j..]
    {
      ChainFrom(cells, k0, i);
      ChainFrom(cells, k1, j);
    }
  }

  /** The merge of two decreasing sequences that stops at the first common element. */
  function MergeDown(a: seq<Ref>, b: seq<Ref>): seq<Ref>
    decreases |a| + |b|
  {
    if b == [] then a
    else if a == [] then b
    else if a[0] == b[0] then a
    else if a[0] < b[0] then [b[0]] + MergeDown(a, b[1..])
    else [a[0]] + MergeDown(a[1..], b)
  }

  /** The merge holds what the two sequences hold, each element once, in decreasing order. */
  lemma {:induction false} MergeIsUnion(a: seq<Ref>, b: seq<Ref>)
    requires Decreasing(a) && Decreasing(b) && ShareTails(a, b)
    ensures Decreasing(MergeDown(a, b))
    ensures forall x :: x in MergeDown(a, b) <==> x in a || x in b
    decreases |a| + |b|
  {
    if a != [] && b != [] {
      if a[0] == b[0] {
        assert a[0..] == b[0..];
      } else if a[0] < b[0] {
        assert b == [b[0]] + b[1..];
        TailShares(a, b);
        MergeIsUnion(a, b[1..]);
        AllBelow(a, b[0]);
        DecreasingCons(b[0], MergeDown(a, b[1..]));
      } else {
        assert a == [a[0]] + a[1..];
        TailShares(b, a);
        MergeIsUnion(a[1..], b);
        AllBelow(b, a[0]);
        DecreasingCons(a[0], MergeDown(a[1..], b));
      }
    }
  }

  lemma AllBelow(a: seq<Ref>, x: Ref)
    requires Decreasing(a) && a != [] && a[0] < x
    ensures forall y | y in a :: y < x
  {
  }

  lemma TailShares(a: seq<Ref>, b: seq<Ref>)
    requires ShareTails(a, b) || ShareTails(b, a)
    requires b != []
    ensures ShareTails(a, b[1..]) && ShareTails(b[1..], a)
  {
    forall i, j | 0 <= i < |a| && 0 <= j < |b[1..]| && a[i] == b[1..][j]
      ensures a[i..] == b[1..][j..]
    {
      assert b[j + 1] == a[i] && b[1..][j..] == b[j + 1..];
    }
  }

  /** The head of a chain is the link that a state or an option holds. */
  function Link(cells: Cells, h: Ref): Ref {
    if !(0 <= h < |cells|) then NULL
    else match cells[h]
      case OptionCell(_, _, next) => next
      case StateCell(_, _, _, Chain(f)) => f
      case _ => NULL
  }

  function Relink(cell: Cell, k: Ref): Cell {
    match cell
    case OptionCell(_, _, _) => cell.(next := k)
    case StateCell(_, _, _, _) => cell.(sem := Chain(k))
  }

  /** A chain does not change unless an option on it does. */
  lemma {:induction false} ChainLocal(a: Cells, b: Cells, k: Ref)
    requires |a| == |b|
    requires forall x | 0 <= x <= k && x < |a| && (a[x].OptionCell? || b[x].OptionCell?) :: a[x] == b[x]
    ensures ChainOf(a, k) == ChainOf(b, k) && Chained(a, k) == Chained(b, k)
    decreases k
  {
    if IsOption(a, k) && a[k].next < k { ChainLocal(a, b, a[k].next); }
  }

  function Last(h: Ref, done: seq<Ref>): Ref {
    if done == [] then h else done[|done| - 1]
  }

  /** A chain that starts with the options in `done`, each linked to from the one before, or from `h`. */
  predicate Leads(cells: Cells, h: Ref, done: seq<Ref>)
    decreases |done|
  {
    done == [] ||
    var before := done[..|done| - 1]; var k := done[|done| - 1];
    Leads(cells, h, before) && Link(cells, Last(h, before)) == k && IsOption(cells, k)
  }

  lemma LeadsStep(cells: Cells, h: Ref, done: seq<Ref>)
    requires Leads(cells, h, done) && done != []
    ensures var before := done[..|done| - 1]; var k := done[|done| - 1];
      && Leads(cells, h, before) && Link(cells, Last(h, before)) == k && IsOption(cells, k)
      && Link(cells, k) == cells[k].next
    ensures var k := done[|done| - 1];
      cells[k].next < k && Chained(cells, cells[k].next) ==>
        Chained(cells, k) && ChainOf(cells, k) == [k] + ChainOf(cells, cells[k].next)
  {
  }

  lemma {:induction false} LeadsToChain(cells: Cells, h: Ref, done: seq<Ref>)
    requires Leads(cells, h, done) && Chained(cells, Link(cells, Last(h, done)))
    requires forall x | x in done :: IsOption(cells, x) ==> cells[x].next < x
    ensures Chained(cells, Link(cells, h))
    ensures ChainOf(cells, Link(cells, h)) == done + ChainOf(cells, Link(cells, Last(h, done)))
    decreases |done|
  {
    hide Leads, ChainOf, Chained;
    if done != [] {
      var before := done[..|done| - 1]; var k := done[|done| - 1];
      assert k in done;
      assert done == before + [k];
      LeadsStep(cells, h, done);
      LeadsToChain(cells, h, before);
    }
  }

  /** The links that `done` consists of: all but the one that its last element holds. */
  lemma {:induction false} LeadsStable(a: Cells, b: Cells, h: Ref, done: seq<Ref>)
    requires |a| == |b| && Leads(a, h, done)
    requires forall x | IsOption(a, x) :: IsOption(b, x)
    requires done != [] ==> Link(a, h) == Link(b, h)
    requires forall i | 0 <= i < |done| - 1 :: Link(a, done[i]) == Link(b, done[i])
    ensures Leads(b, h, done)
    decreases |done|
  {
    if done != [] { LeadsStable(a, b, h, done[..|done| - 1]); }
  }

  /** The state of the merging loop: what has been linked up, what is left of either chain. */
  ghost predicate Merging(cells: Cells, s0: Ref, done: seq<Ref>, z1: Ref) {
    var h := Last(s0, done);
    && IsState(cells, s0) && cells[s0].sem.Chain?
    && Leads(cells, s0, done) && Decreasing(done)
    && (forall x | x in done :: IsOption(cells, x) && cells[x].next < x && z1 < x)
    && Chained(cells, Link(cells, h)) && Chained(cells, z1)
  }

  /** What the loop has yet to compute. */
  ghost function Outcome(cells: Cells, s0: Ref, done: seq<Ref>, z1: Ref): seq<Ref> {
    done + MergeDown(ChainOf(cells, Link(cells, Last(s0, done))), ChainOf(cells, z1))
  }

  /** Put option `z1` between `h` and what it leads to. */
  function Inserted(cells: Cells, h: Ref, z1: Ref): Cells
    requires 0 <= h < |cells| && IsOption(cells, z1)
  {
    cells[h := Relink(cells[h], z1)][z1 := cells[z1].(next := Link(cells, h))]
  }

  lemma LeadsAppend(cells: Cells, h: Ref, done: seq<Ref>, k: Ref)
    requires Leads(cells, h, done) && Link(cells, Last(h, done)) == k && IsOption(cells, k)
    ensures Leads(cells, h, done + [k])
  {
    assert (done + [k])[..|done|] == done;
  }

  lemma DecreasingAppend(done: seq<Ref>, k: Ref)
    requires Decreasing(done) && forall x | x in done :: k < x
    ensures Decreasing(done + [k])
  {
    forall i, j | 0 <= i < j < |done + [k]|
      ensures (done + [k])[j] < (done + [k])[i]
    {
      if j == |done| { assert done[i] in done; }
    }
  }

  lemma ChainedStep(cells: Cells, k: Ref)
    requires Chained(cells, k) && k != NULL
    ensures IsOption(cells, k) && cells[k].next < k && Chained(cells, cells[k].next)
    ensures ChainOf(cells, k) == [k] + ChainOf(cells, cells[k].next)
  {
  }

  lemma MergeDownStep(a: seq<Ref>, b: seq<Ref>)
    requires a != [] && b != [] && a[0] != b[0]
    ensures a[0] < b[0] ==> MergeDown(a, b) == [b[0]] + MergeDown(a, b[1..])
    ensures b[0] < a[0] ==> MergeDown(a, b) == [a[0]] + MergeDown(a[1..], b)
  {
  }

  lemma InsertLinks(cells: Cells, h: Ref, z1: Ref)
    requires 0 <= h < |cells| && h != z1 && IsOption(cells, z1)
    requires cells[h].StateCell? ==> cells[h].sem.Chain?
    ensures var b := Inserted(cells, h, z1);
      && |b| == |cells| && Link(b, h) == z1 && Link(b, z1) == Link(cells, h)
      && (forall i | 0 <= i < |cells| && i != h && i != z1 :: b[i] == cells[i])
      && (forall x | IsOption(cells, x) :: IsOption(b, x))
      && (forall x | IsState(cells, x) :: IsState(b, x))
      && (IsState(cells, h) ==> b[h].sem == Chain(z1))
  {
  }

  lemma InsertStep(cells: Cells, s0: Ref, done: seq<Ref>, z1: Ref)
    requires Merging(cells, s0, done, z1) && z1 != NULL
    requires var z := Link(cells, Last(s0, done)); z < z1 && z != NULL
    ensures var h := Last(s0, done); 0 <= h < |cells| && h != z1 && IsOption(cells, z1) && cells[z1].next < z1
    ensures IsOption(cells, Link(cells, Last(s0, done)))
    ensures var b := Inserted(cells, Last(s0, done), z1);
      && Link(b, z1) == Link(cells, Last(s0, done))
      && Merging(b, s0, done + [z1], cells[z1].next)
      && Outcome(b, s0, done + [z1], cells[z1].next) == Outcome(cells, s0, done, z1)
  {
    hide Leads, ChainOf, Chained, MergeDown, Decreasing, Inserted;
    var h := Last(s0, done);
    var z := Link(cells, h);
    if done != [] { assert h in done; }
    ChainedStep(cells, z1);
    var rest := cells[z1].next;
    ChainedStep(cells, z);
    var b := Inserted(cells, h, z1);
    InsertLinks(cells, h, z1);
    InsertLeads(cells, b, s0, done, z1);
    LeadsAppend(b, s0, done, z1);
    DecreasingAppend(done, z1);
    ChainLocal(cells, b, z);
    ChainLocal(cells, b, rest);
    MergeDownStep(ChainOf(cells, z), ChainOf(cells, z1));
    assert ChainOf(cells, z1)[1..] == ChainOf(cells, rest);
    assert done + [z1] + MergeDown(ChainOf(cells, z), ChainOf(cells, rest)) == Outcome(cells, s0, done, z1);
  }

  lemma {:induction false} InsertLeads(cells: Cells, b: Cells, s0: Ref, done: seq<Ref>, z1: Ref)
    requires Leads(cells, s0, done) && Decreasing(done) && (forall x | x in done :: z1 < x) && s0 != z1
    requires |b| == |cells| && forall x | IsOption(cells, x) :: IsOption(b, x)
    requires forall i | 0 <= i < |cells| && i != Last(s0, done) && i != z1 :: b[i] == cells[i]
    requires IsState(cells, s0) && forall x | x in done :: IsOption(cells, x)
    ensures Leads(b, s0, done)
  {
    forall i | 0 <= i < |done| - 1
      ensures Link(cells, done[i]) == Link(b, done[i])
    {
      assert done[i] in done && done[|done| - 1] < done[i];
    }
    if done != [] { assert done[|done| - 1] in done; }
    LeadsStable(cells, b, s0, done);
  }

  lemma SkipStep(cells: Cells, s0: Ref, done: seq<Ref>, z1: Ref)
    requires Merging(cells, s0, done, z1) && z1 != NULL
    requires var z := Link(cells, Last(s0, done)); z1 < z
    ensures var z := Link(cells, Last(s0, done));
      && IsOption(cells, z) && cells[z].next < z && IsOption(cells, z1)
      && Merging(cells, s0, done + [z], z1)
      && Outcome(cells, s0, done + [z], z1) == Outcome(cells, s0, done, z1)
  {
    hide Leads, ChainOf, Chained, MergeDown, Decreasing;
    var z := Link(cells, Last(s0, done));
    if done != [] { assert Last(s0, done) in done; }
    ChainedStep(cells, z1);
    ChainedStep(cells, z);
    LeadsAppend(cells, s0, done, z);
    AboveLink(cells, s0, done, z);
    DecreasingAppend(done, z);
    MergeDownStep(ChainOf(cells, z), ChainOf(cells, z1));
    assert ChainOf(cells, z)[1..] == ChainOf(cells, cells[z].next);
    assert done + [z] + MergeDown(ChainOf(cells, cells[z].next), ChainOf(cells, z1)) == Outcome(cells, s0, done, z1);
  }

  lemma AboveLink(cells: Cells, s0: Ref, done: seq<Ref>, z: Ref)
    requires Decreasing(done) && (forall x | x in done :: IsOption(cells, x) && cells[x].next < x)
    requires z == Link(cells, Last(s0, done))
    ensures forall x | x in done :: z < x
  {
    forall x | x in done
      ensures z < x
    {
      assert done[|done| - 1] in done;
    }
  }

  /** Only links of the options in `a` and `b`, and the option chains of `s0` and `s1`, differ. */
  ghost predicate OnlyLinks(before: Cells, after: Cells, s0: Ref, s1: Ref, a: seq<Ref>, b: seq<Ref>) {
    && |after| == |before|
    && forall i | 0 <= i < |before| ::
         || after[i] == before[i]
         || ((i == s0 || i == s1) && before[i].StateCell? && before[i].sem.Chain?
             && after[i].StateCell? && after[i].sem.Chain?
             && after[i] == before[i].(sem := after[i].sem))
         || ((i in a || i in b) && before[i].OptionCell? && after[i].OptionCell?
             && after[i] == before[i].(next := after[i].next))
  }

  lemma MergeStart(cells: Cells, s0: Ref, s1: Ref)
    requires IsState(cells, s0) && IsState(cells, s1) && cells[s0].sem.Chain? && cells[s1].sem.Chain?
    requires Chained(cells, cells[s0].sem.first) && Chained(cells, cells[s1].sem.first)
    ensures var a := ChainOf(cells, cells[s0].sem.first); var b := ChainOf(cells, cells[s1].sem.first);
      && Merging(cells, s0, [], cells[s1].sem.first)
      && Outcome(cells, s0, [], cells[s1].sem.first) == MergeDown(a, b)
      && OnlyLinks(cells, cells, s0, s1, a, b)
      && Within(cells, s0, [], cells[s1].sem.first, a, b)
  {
    hide MergeDown, ChainOf, Chained;
    var a := ChainOf(cells, cells[s0].sem.first); var b := ChainOf(cells, cells[s1].sem.first);
    assert [] + MergeDown(a, b) == MergeDown(a, b);
  }

  /** What is left to merge comes from the two chains. */
  ghost predicate Within(cells: Cells, s0: Ref, done: seq<Ref>, z1: Ref, a: seq<Ref>, b: seq<Ref>) {
    && (forall x | x in done :: x in a || x in b)
    && (forall x | x in ChainOf(cells, Link(cells, Last(s0, done))) :: x in a)
    && (forall x | x in ChainOf(cells, z1) :: x in b)
  }

  lemma InsertWithin(cells: Cells, s0: Ref, s1: Ref, done: seq<Ref>, z1: Ref, before: Cells, a: seq<Ref>, b: seq<Ref>)
    requires Merging(cells, s0, done, z1) && z1 != NULL
    requires var z := Link(cells, Last(s0, done)); z < z1 && z != NULL
    requires OnlyLinks(before, cells, s0, s1, a, b) && Within(cells, s0, done, z1, a, b)
    ensures var h := Last(s0, done); 0 <= h < |cells| && h != z1 && IsOption(cells, z1)
    ensures var c := Inserted(cells, Last(s0, done), z1);
      && OnlyLinks(before, c, s0, s1, a, b) && Within(c, s0, done + [z1], cells[z1].next, a, b)
  {
    hide Leads, Chained, ChainOf, MergeDown, Decreasing;
    var h := Last(s0, done);
    var z := Link(cells, h);
    if done != [] { assert h in done; }
    ChainedStep(cells, z1);
    ChainedStep(cells, z);
    InsertLinks(cells, h, z1);
    var c := Inserted(cells, h, z1);
    ChainLocal(cells, c, z);
    ChainLocal(cells, c, cells[z1].next);
  }

  lemma SkipWithin(cells: Cells, s0: Ref, done: seq<Ref>, z1: Ref, a: seq<Ref>, b: seq<Ref>)
    requires Merging(cells, s0, done, z1) && Within(cells, s0, done, z1, a, b)
    requires Link(cells, Last(s0, done)) != NULL
    ensures Within(cells, s0, done + [Link(cells, Last(s0, done))], z1, a, b)
  {
    hide Leads, Chained, ChainOf, MergeDown, Decreasing;
    ChainedStep(cells, Link(cells, Last(s0, done)));
  }

  /** The last step: the rest of one chain follows what has been linked up. */
  lemma MergeEnd(cells: Cells, s0: Ref, s1: Ref, done: seq<Ref>, z1: Ref, before: Cells, a: seq<Ref>, b: seq<Ref>)
    requires Merging(cells, s0, done, z1) && OnlyLinks(before, cells, s0, s1, a, b) && Within(cells, s0, done, z1, a, b)
    requires var z := Link(cells, Last(s0, done)); z1 == z || z1 == NULL || z == NULL
    ensures var h := Last(s0, done); 0 <= h < |cells|
    ensures var h := Last(s0, done);
      var c := if z1 != Link(cells, h) && z1 != NULL then cells[h := Relink(cells[h], z1)] else cells;
      && IsState(c, s0) && c[s0].sem.Chain? && Chained(c, c[s0].sem.first)
      && ChainOf(c, c[s0].sem.first) == Outcome(cells, s0, done, z1)
      && OnlyLinks(before, c, s0, s1, a, b)
  {
    hide Leads, Decreasing, ChainOf, Chained;
    var h := Last(s0, done);
    if done != [] { assert h in done; }
    var z := Link(cells, h);
    var c := if z1 != z && z1 != NULL then cells[h := Relink(cells[h], z1)] else cells;
    if z1 != NULL { ChainedStep(cells, z1); }
    NullChain(cells);
    ChainLocal(cells, c, z1);
    LeadsLast(cells, c, s0, done, z1);
    LeadsToChain(c, s0, done);
  }

  lemma NullChain(cells: Cells)
    ensures ChainOf(cells, NULL) == [] && Chained(cells, NULL)
  {
  }

  lemma LeadsLast(cells: Cells, c: Cells, s0: Ref, done: seq<Ref>, k: Ref)
    requires Leads(cells, s0, done) && Decreasing(done) && IsState(cells, s0)
    requires (forall x | x in done :: IsOption(cells, x))
    requires var h := Last(s0, done); 0 <= h < |cells| && (c == cells[h := Relink(cells[h], k)] || c == cells)
    ensures Leads(c, s0, done)
  {
    forall i | 0 <= i < |done| - 1
      ensures Link(cells, done[i]) == Link(c, done[i])
    {
      assert done[|done| - 1] < done[i];
    }
    if done != [] { assert Last(s0, done) in done; }
    LeadsStable(cells, c, s0, done);
  }

  lemma {:induction false} MergedChains(cells: Cells, k0: Ref, k1: Ref)
    ensures Decreasing(MergeDown(ChainOf(cells, k0), ChainOf(cells, k1)))
    ensures forall x ::
      x in MergeDown(ChainOf(cells, k0), ChainOf(cells, k1)) <==> x in ChainOf(cells, k0) || x in ChainOf(cells, k1)
  {
    ChainDecreases(cells, k0);
    ChainDecreases(cells, k1);
    ChainsShareTails(cells, k0, k1);
    MergeIsUnion(ChainOf(cells, k0), ChainOf(cells, k1));
  }

  /** What follows `x` in a list. */
  function Successor(ks: seq<Ref>, x: Ref): Ref {
    if |ks| < 2 then NULL else if ks[0] == x then ks[1] else Successor(ks[1..], x)
  }

  /** The two states share the merge of their chains, each option linked to the next one. */
  function Joined(cells: Cells, s0: Ref, s1: Ref): Cells
    requires IsState(cells, s0) && IsState(cells, s1) && cells[s0].sem.Chain? && cells[s1].sem.Chain?
  {
    var ks := MergeDown(ChainOf(cells, cells[s0].sem.first), ChainOf(cells, cells[s1].sem.first));
    seq(|cells|, i requires 0 <= i < |cells| =>
      if i == s0 || i == s1 then Relink(cells[i], if ks == [] then NULL else ks[0])
      else if i in ks then Relink(cells[i], Successor(ks, i))
      else cells[i])
  }

  lemma {:induction false} ChainLinks(cells: Cells, k: Ref)
    requires Chained(cells, k)
    ensures forall x | x in ChainOf(cells, k) ::
      IsOption(cells, x) && cells[x].next == Successor(ChainOf(cells, k), x)
    ensures k == if ChainOf(cells, k) == [] then NULL else ChainOf(cells, k)[0]
    decreases k
  {
    if k != NULL {
      var rest := ChainOf(cells, cells[k].next);
      ChainLinks(cells, cells[k].next);
      ChainDecreases(cells, cells[k].next);
      assert ([k] + rest)[1..] == rest;
      forall x | x in ChainOf(cells, k)
        ensures IsOption(cells, x) && cells[x].next == Successor(ChainOf(cells, k), x)
      {
        if x != k { assert x in rest; }
      }
    }
  }

  /** The merge of the chains, and that nothing else has changed, say all about the arena. */
  lemma JoinedIs(before: Cells, after: Cells, s0: Ref, s1: Ref)
    requires IsState(before, s0) && IsState(before, s1) && before[s0].sem.Chain? && before[s1].sem.Chain?
    requires Chained(before, before[s0].sem.first) && Chained(before, before[s1].sem.first)
    requires IsState(after, s0) && IsState(after, s1) && after[s0].sem.Chain? && after[s1].sem == after[s0].sem
    requires var a := ChainOf(before, before[s0].sem.first); var b := ChainOf(before, before[s1].sem.first);
      && OnlyLinks(before, after, s0, s1, a, b)
      && Chained(after, after[s0].sem.first) && ChainOf(after, after[s0].sem.first) == MergeDown(a, b)
    ensures after == Joined(before, s0, s1)
  {
    hide Chained, ChainOf, MergeDown, Successor;
    var a, b := ChainOf(before, before[s0].sem.first), ChainOf(before, before[s1].sem.first);
    MergedChains(before, before[s0].sem.first, before[s1].sem.first);
    ChainLinks(after, after[s0].sem.first);
    ChainDecreases(after, after[s0].sem.first);
    forall i | 0 <= i < |before|
      ensures after[i] == Joined(before, s0, s1)[i]
    {
      assert i in a || i in b <==> i in MergeDown(a, b);
    }
  }

  /** The merging loop of `yymergeOptionSets`. */
  method MergeChains(cells: array<Cell>, s0: Ref, s1: Ref)
    requires IsState(cells[..], s0) && IsState(cells[..], s1) && s0 != s1 && cells[s0].sem.Chain?
    requires cells[s1].sem.Chain?
    requires Chained(cells[..], cells[s0].sem.first) && Chained(cells[..], cells[s1].sem.first)
    modifies cells
    ensures cells[..] == Joined(old(cells[..]), s0, s1)
    ensures var a := ChainOf(old(cells[..]), old(cells[s0]).sem.first);
      var b := ChainOf(old(cells[..]), old(cells[s1]).sem.first);
      && OnlyLinks(old(cells[..]), cells[..], s0, s1, a, b)
      && IsState(cells[..], s0) && IsState(cells[..], s1) && cells[s0].sem.Chain? && cells[s1].sem == cells[s0].sem
      && Chained(cells[..], cells[s0].sem.first) && ChainOf(cells[..], cells[s0].sem.first) == MergeDown(a, b)
    ensures Decreasing(ChainOf(cells[..], cells[s0].sem.first))
    ensures forall x :: x in ChainOf(cells[..], cells[s0].sem.first) <==>
      x in ChainOf(old(cells[..]), old(cells[s0]).sem.first) || x in ChainOf(old(cells[..]), old(cells[s1]).sem.first)
  {
    hide Merging, Outcome, Within, OnlyLinks, Leads, Decreasing, ChainOf, Chained, MergeDown, Joined;
    ghost var before := cells[..];
    ghost var a := ChainOf(before, before[s0].sem.first);
    ghost var b := ChainOf(before, before[s1].sem.first);
    ghost var done: seq<Ref> := [];
    MergeStart(before, s0, s1);
    MergedChains(before, before[s0].sem.first, before[s1].sem.first);
    var h := s0;
    var z1 := cells[s1].sem.first;
    while true
      invariant h == Last(s0, done)
      invariant Merging(cells[..], s0, done, z1) && Within(cells[..], s0, done, z1, a, b)
      invariant Outcome(cells[..], s0, done, z1) == MergeDown(a, b)
      invariant OnlyLinks(before, cells[..], s0, s1, a, b)
      decreases Link(cells[..], h) + z1
    {
      var z := Link(cells[..], h);
      ghost var now := cells[..];
      if z1 == z || z1 == NULL {
        MergeEnd(now, s0, s1, done, z1, before, a, b);
        break;
      } else if z == NULL {
        MergeEnd(now, s0, s1, done, z1, before, a, b);
        cells[h] := Relink(cells[h], z1);
        assert cells[..] == now[h := Relink(now[h], z1)];
        break;
      } else if z < z1 {
        InsertStep(now, s0, done, z1);
        InsertWithin(now, s0, s1, done, z1, before, a, b);
        cells[h] := Relink(cells[h], z1);
        var next := cells[z1].next;
        cells[z1] := cells[z1].(next := z);
        assert cells[..] == Inserted(now, h, z1);
        done := done + [z1];
        h := z1;
        z1 := next;
      } else {
        SkipStep(now, s0, done, z1);
        SkipWithin(now, s0, done, z1, a, b);
        done := done + [z];
        h := z;
      }
    }
    SharedChain(cells[..], s0, s1, before, a, b);
    cells[s1] := cells[s1].(sem := cells[s0].sem);
    JoinedIs(before, cells[..], s0, s1);
  }

  /** Sharing the chain of `s0` with `s1`. */
  lemma SharedChain(cells: Cells, s0: Ref, s1: Ref, before: Cells, a: seq<Ref>, b: seq<Ref>)
    requires IsState(before, s0) && IsState(before, s1) && s0 != s1 && before[s1].sem.Chain?
    requires OnlyLinks(before, cells, s0, s1, a, b) && IsState(cells, s0) && cells[s0].sem.Chain?
    ensures IsState(cells, s1)
    ensures var c := cells[s1 := cells[s1].(sem := cells[s0].sem)];
      && OnlyLinks(before, c, s0, s1, a, b)
      && (forall k :: ChainOf(c, k) == ChainOf(cells, k) && Chained(c, k) == Chained(cells, k))
  {
    var c := cells[s1 := cells[s1].(sem := cells[s0].sem)];
    forall k
      ensures ChainOf(c, k) == ChainOf(cells, k) && Chained(c, k) == Chained(cells, k)
    {
      ChainLocal(cells, c, k);
    }
  }
}
