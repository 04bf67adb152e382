/** The cyclic grammar `A: A | 'a'`, on which `yyglrReduce` overwrites a value. */
module GlrExample {
  import opened Grammar
  import opened LrTables
  import opened GlrForest
  import opened GlrMachine
  import opened GlrCyclic
  import opened GlrRun
  import opened UnitSteps

  const LETTER := 3
  const A := 5

  /** Rule 2 is `A: A`, rule 3 is `A: 'a'`; state 2, entered on `A`, can shift the end marker and
      reduce by rule 2. */
  const CERTIFICATE := Certificate(
    [Rule(0, []), Rule(4, [A, EOF]), Rule(A, [A]), Rule(A, [LETTER])],
    [{Item(1, 0), Item(2, 0), Item(3, 0)}, {Item(3, 1)}, {Item(1, 1), Item(2, 1)}, {Item(1, 2)}])

  const TABLES := Tables(
    4, 4, 3, 2, 1, -50, -9,
    [1, -50, 0, -50], [0, 3, 2, 0], [0, LETTER, A, 0],
    [-50, -50], [0, 2],
    [3, 0, 0, 0, 1], [0, -1, -1, -1, 3],
    [0, 4, A, A], [0, 2, 1, 1])

  lemma Matches()
    ensures TABLES.Sized() && TABLES.NStates() == 4 && RulesMatch(TABLES, CERTIFICATE)
  {
  }

  lemma Actions(s: nat, token: nat)
    requires s < 3 && token < 4
    ensures TABLES.Sized()
    ensures TABLES.Action(s, token) ==
      if s == 0 then (if token == LETTER then ShiftTo(1) else Fail)
      else if s == 1 then ReduceBy(3)
      else if token == EOF then ShiftTo(3) else ReduceBy(2)
  {
    Matches();
  }

  lemma Edges()
    ensures Edge(TABLES, CERTIFICATE, 0, LETTER, 1) && Edge(TABLES, CERTIFICATE, 0, A, 2)
    ensures Edge(TABLES, CERTIFICATE, 2, EOF, 3)
  {
  }

  /** The tables pass the check. */
  lemma ExampleChecked()
    ensures Checked(TABLES, CERTIFICATE)
  {
    hide TABLES.Sized, TABLES.Action, Edge, RulesMatch;
    Matches();
    Edges();
    forall s: nat, token: nat | s < 4 && s != 3 && token < 4
      ensures ActionSound(TABLES, CERTIFICATE, s, token, TABLES.Action(s, token))
    {
      Actions(s, token);
    }
    forall s: nat, it: Item | s < 4 && it in CERTIFICATE.items[s]
      ensures ItemSound(TABLES, CERTIFICATE, s, it)
    {
    }
  }

  /** Only state 2 shifts the end marker. */
  lemma ExampleEnds()
    ensures TABLES.Sized() && EndsOnce(TABLES)
  {
    hide TABLES.Action;
    Matches();
    forall s: nat | ShiftsEnd(TABLES, s)
      ensures s == 2 && TABLES.Action(s, EOF) == ShiftTo(TABLES.final)
    {
      Actions(s, EOF);
    }
  }

  /** With the conflict in state 2 on the end marker. */
  const CONFLICTED := GlrTables(TABLES, [1, 0, 0, 0, 0], [0, 2, 0])

  /** So do the conflicts, and the input is lexed: the example lacks none of the hypotheses of the theorem on
      runs but that the grammar be free of cycles. */
  lemma ExampleConflicts()
    ensures ConflictsChecked(CONFLICTED, CERTIFICATE) && Lexed(CONFLICTED, [LETTER])
  {
    hide Checked;
    ExampleChecked();
    Matches();
    assert CONFLICTED.Listed(0) == [];
    assert CONFLICTED.Listed(1) == [2] + CONFLICTED.Listed(2);
    forall s: nat, token: nat | s < 4 && s != 3 && token < 4
      ensures ListSound(CONFLICTED, CERTIFICATE, s, CONFLICTED.ConflictAt(s, token))
    {
      assert CONFLICTED.ConflictAt(s, token) == if s == 2 && token == EOF then 1 else 0;
    }
  }

  lemma ExampleCyclic()
    ensures Cyclic(CERTIFICATE.g)
  {
    var g, kids := CERTIFICATE.g, [Leaf(A)];
    assert kids[..0] == [];
    assert Yields(kids) == Yields(kids[..0]) + Yield(kids[0]) == [A];
    assert Derivation(g, Leaf(A)) && Root(g, Leaf(A)) == A;
    assert g[2] == Rule(A, [A]);
    assert Derivations(g, kids) && Roots(g, kids, g[2].rhs);
    assert SelfDerivation(g, Node(2, kids));
  }

  /** The configuration after shifting `'a'`, reducing it to `A`, and splitting the stack. */
  function Example(): Glr {
    var value := Node(3, [Leaf(LETTER)]);
    Glr([StateCell(0, NULL, 0, Val(Leaf(EOF))), StateCell(2, 0, 1, Val(value))], [1, 1], 1, 1)
  }

  function ShiftedLetter(): Glr {
    ShiftAll(Start(Leaf(EOF)), [LETTER], [1])
  }

  function ReducedLetter(): Glr {
    Example().(tops := [1], split := NULL)
  }

  lemma ShiftStep()
    ensures Next(CONFLICTED, CERTIFICATE, [LETTER], Start(Leaf(EOF)), ShiftedLetter())
  {
    hide Dies, Purges, Defers, Reduces, Returns, Forks;
    Matches();
    Actions(0, LETTER);
    var start := Start(Leaf(EOF));
    assert CanShift(CONFLICTED, [LETTER], start, 0, 1);
    assert AllShift(CONFLICTED, [LETTER], start, [1]);
    assert Shifts(CONFLICTED, [LETTER], start, ShiftedLetter());
  }

  lemma Shifted()
    ensures ShiftedLetter() ==
      Glr([StateCell(0, NULL, 0, Val(Leaf(EOF))), StateCell(1, 0, 1, Val(Leaf(LETTER)))], [1], NULL, 1)
  {
    var start := Start(Leaf(EOF));
    assert ShiftFirst(start, [LETTER], [1], 1) == ShiftToken(start, 0, 1, 1, LETTER);
  }

  lemma ReduceStep()
    ensures Next(CONFLICTED, CERTIFICATE, [LETTER], ShiftedLetter(), ReducedLetter())
  {
    hide Dies, Purges, Defers, Shifts, Returns, Forks;
    Matches();
    Actions(1, EOF);
    Shifted();
    var shifted := ShiftedLetter();
    assert CanReduce(CONFLICTED, [LETTER], shifted, 0, 3);
    assert TopValues(shifted.cells, 1) == [Leaf(LETTER)];
    assert shifted.cells[..1] == Start(Leaf(EOF)).cells;
    assert ReducesBy(CONFLICTED, shifted, ReducedLetter(), 3);
  }

  lemma SplitStep()
    ensures Next(CONFLICTED, CERTIFICATE, [LETTER], ReducedLetter(), Example())
  {
    hide Dies, Purges, Defers, Reduces, Shifts, Returns;
    assert Example() == SplitStack(ReducedLetter(), 0);
    assert Forks(ReducedLetter(), Example());
  }

  /** A run reaches the example. */
  lemma ExampleReached() returns (gs: seq<Glr>)
    ensures Run(CONFLICTED, CERTIFICATE, [LETTER], gs) && gs != [] && gs[|gs| - 1] == Example()
  {
    hide Next;
    ShiftStep();
    ReduceStep();
    SplitStep();
    gs := [Start(Leaf(EOF)), ShiftedLetter(), ReducedLetter(), Example()];
    assert gs[..3] == [Start(Leaf(EOF)), ShiftedLetter(), ReducedLetter()];
    assert gs[..3][..2] == [Start(Leaf(EOF)), ShiftedLetter()];
    assert gs[..3][..2][..1] == [Start(Leaf(EOF))];
    assert Run(CONFLICTED, CERTIFICATE, [LETTER], gs[..3][..2][..1]);
    assert Run(CONFLICTED, CERTIFICATE, [LETTER], gs[..3][..2]);
    assert Run(CONFLICTED, CERTIFICATE, [LETTER], gs[..3]);
  }

  /** The deferred reduction that the tables call for next overwrites the value of `A`. */
  lemma ExampleClobbers()
    ensures TABLES.Sized() && CanReduce(CONFLICTED, [LETTER], Example(), 1, 2)
    ensures IsState(Example().cells, Base(TABLES, Example(), 1, 2))
    ensures Example().cells[Base(TABLES, Example(), 1, 2)].lr < TABLES.NStates()
    ensures Merging(TABLES, Example(), 1, 2) == 1 && Example().cells[1].sem.Val?
    ensures ReduceDeferred(TABLES, Example(), 1, 2).cells[1].sem.Clobbered?
  {
    Matches();
    assert CONFLICTED.ConflictAt(2, EOF) == 1;
    assert CONFLICTED.Listed(1) == [2] + CONFLICTED.Listed(2);
    assert Called(CONFLICTED, 2, EOF, 2);
    assert Climb(Example().cells, 1, 1) == 0;
  }
}
