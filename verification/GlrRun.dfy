/** Runs of the GLR parser: any interleaving of splits, deferred reductions, deaths, joint shifts and
    returns to deterministic operation that the tables allow. */
module GlrRun {
  import opened Grammar
  import opened LrTables
  import opened GlrForest
  import opened GlrMachine
  import opened GlrCyclic
  import opened UnitSteps
  import GlrCompress
  import GlrReturn

  /** The LR tables with the further reductions that apply on a conflict: `yyconflp`, parallel to
      `yytable`, points into `yyconfl`, where lists end with 0. */
  datatype GlrTables = GlrTables(lr: Tables, conflp: seq<nat>, confl: seq<nat>) {
    /** Where the list of conflicting rules for a state and a token starts. */
    function ConflictAt(s: nat, token: nat): nat
      requires lr.Sized() && s < lr.NStates()
    {
      var i := lr.pact[s] + token;
      if lr.IsDefaulted(s) || i < 0 || lr.last < i || lr.check[i] != token || i >= |conflp| then 0 else conflp[i]
    }

    function Listed(i: nat): seq<nat>
      decreases |confl| - i
    {
      if i >= |confl| || confl[i] == 0 then [] else [confl[i]] + Listed(i + 1)
    }
  }

  /** All conflicting reductions are sound, and the list for default actions is empty. */
  ghost predicate ConflictsChecked(d: GlrTables, c: Certificate) {
    && Checked(d.lr, c) && RulesMatch(d.lr, c)
    && |d.confl| > 0 && d.confl[0] == 0
    && forall s: nat, token: nat | s < d.lr.NStates() && s != d.lr.final && token < d.lr.nTokens ::
       ListSound(d, c, s, d.ConflictAt(s, token))
  }

  ghost predicate ListSound(d: GlrTables, c: Certificate, s: nat, i: nat)
    requires RulesMatch(d.lr, c) && s < d.lr.NStates()
  {
    forall r | r in d.Listed(i) :: ReductionSound(d.lr, c, s, r)
  }

  /** The tokens are within the table. */
  predicate Lexed(d: GlrTables, text: seq<nat>) {
    forall i | 0 <= i < |text| :: text[i] < d.lr.nTokens
  }

  /** The tables call for a reduction by `r` in state `s`. */
  predicate Called(d: GlrTables, s: nat, token: nat, r: nat)
    requires d.lr.Sized() && s < d.lr.NStates()
  {
    d.lr.Action(s, token) == ReduceBy(r) || r in d.Listed(d.ConflictAt(s, token))
  }

  lemma CalledSound(d: GlrTables, c: Certificate, s: nat, token: nat, r: nat)
    requires ConflictsChecked(d, c) && s < d.lr.NStates() && s != d.lr.final && token < d.lr.nTokens
    requires Called(d, s, token, r)
    ensures ReductionSound(d.lr, c, s, r)
  {
    hide Checked;
    CheckedAction(d.lr, c, s, token);
    assert ListSound(d, c, s, d.ConflictAt(s, token));
  }

  ghost predicate CanReduce(d: GlrTables, text: seq<nat>, g: Glr, k: nat, r: nat) {
    && d.lr.Sized() && IsLive(g, k)
    && var s := g.cells[g.tops[k]].lr;
    && s < d.lr.NStates() && s != d.lr.final && Called(d, s, TokenAt(text, g.pos), r)
  }

  /** The state that stack `k` is to shift to. */
  ghost predicate CanShift(d: GlrTables, text: seq<nat>, g: Glr, k: nat, s': nat) {
    && d.lr.Sized() && IsLive(g, k)
    && var s := g.cells[g.tops[k]].lr;
    && s < d.lr.NStates() && s != d.lr.final && d.lr.Action(s, TokenAt(text, g.pos)) == ShiftTo(s')
  }

  /** The loop of `yyparse` that shifts the token on the first `n` stacks. */
  function ShiftFirst(g: Glr, text: seq<nat>, targets: seq<nat>, n: nat): (g': Glr)
    requires n <= |targets| == |g.tops|
    ensures |g'.tops| == |g.tops| && g'.pos == g.pos && g'.split == g.split
  {
    if n == 0 then g
    else ShiftToken(ShiftFirst(g, text, targets, n - 1), n - 1, targets[n - 1], g.pos + 1, TokenAt(text, g.pos))
  }

  function ShiftAll(g: Glr, text: seq<nat>, targets: seq<nat>): Glr
    requires |targets| == |g.tops|
  {
    ShiftFirst(g, text, targets, |targets|).(pos := g.pos + 1)
  }

  ghost predicate Forks(g: Glr, g': Glr) {
    exists k: nat :: k < |g.tops| && IsLive(g, k) && g' == SplitStack(g, k)
  }

  /** The action of stack `k` on the token is an error. */
  ghost predicate CanDie(d: GlrTables, text: seq<nat>, g: Glr, k: nat) {
    && d.lr.Sized() && IsLive(g, k)
    && var s := g.cells[g.tops[k]].lr;
    && s < d.lr.NStates() && s != d.lr.final && d.lr.Action(s, TokenAt(text, g.pos)) == Fail
  }

  /** A stack that the tables have an error for, and no other, is given up. */
  ghost predicate Dies(d: GlrTables, text: seq<nat>, g: Glr, g': Glr) {
    g.split != NULL && exists k: nat :: CanDie(d, text, g, k) && g' == Kill(g, k)
  }

  ghost predicate Purges(g: Glr, g': Glr) {
    g.split != NULL && g' == g.(tops := Survivors(g.tops))
  }

  ghost predicate Defers(d: GlrTables, text: seq<nat>, g: Glr, g': Glr) {
    && g.split != NULL
    && exists k: nat, r: nat :: CanReduce(d, text, g, k, r) && DefersBy(d, g, g', k, r)
  }

  ghost predicate DefersBy(d: GlrTables, g: Glr, g': Glr, k: nat, r: nat) {
    && d.lr.Sized() && d.lr.IsRule(r) && IsLive(g, k)
    && IsState(g.cells, Base(d.lr, g, k, r)) && g.cells[Base(d.lr, g, k, r)].lr < d.lr.NStates()
    && g' == ReduceDeferred(d.lr, g, k, r)
  }

  ghost predicate Reduces(d: GlrTables, text: seq<nat>, g: Glr, g': Glr) {
    && g.split == NULL
    && exists r: nat :: CanReduce(d, text, g, 0, r) && ReducesBy(d, g, g', r)
  }

  ghost predicate ReducesBy(d: GlrTables, g: Glr, g': Glr, r: nat) {
    && d.lr.Sized() && d.lr.IsRule(r) && d.lr.r2[r] < |g.cells| && |g.tops| == 1
    && (var b := g.cells[|g.cells| - 1 - d.lr.r2[r]]; b.StateCell? && b.lr < d.lr.NStates())
    && g' == ReduceNow(d.lr, g, r)
  }

  ghost predicate Shifts(d: GlrTables, text: seq<nat>, g: Glr, g': Glr) {
    g.tops != [] && exists targets: seq<nat> ::
      |targets| == |g.tops| && AllShift(d, text, g, targets) && g' == ShiftAll(g, text, targets)
  }

  ghost predicate AllShift(d: GlrTables, text: seq<nat>, g: Glr, targets: seq<nat>)
    requires |targets| == |g.tops|
  {
    forall k | 0 <= k < |g.tops| :: CanShift(d, text, g, k, targets[k])
  }

  ghost predicate Returns(d: GlrTables, c: Certificate, text: seq<nat>, g: Glr, g': Glr) {
    && g.split != NULL && |g.tops| == 1 && IsLive(g, 0) && g.split >= 0
    && exists after :: GlrReturn.Resolution(d.lr, c, text, g, after) && g' == GlrCompress.Compress(g.(cells := after))
  }

  /** One operation. */
  ghost predicate Next(d: GlrTables, c: Certificate, text: seq<nat>, g: Glr, g': Glr) {
    || Forks(g, g') || Dies(d, text, g, g') || Purges(g, g')
    || Defers(d, text, g, g') || Reduces(d, text, g, g')
    || Shifts(d, text, g, g') || Returns(d, c, text, g, g')
  }

  /** The empty stack, as `yyparse` sets it up. */
  function Start(v: Tree): Glr {
    Glr([StateCell(0, NULL, 0, Val(v))], [0], NULL, 0)
  }

  lemma StartInv(d: GlrTables, c: Certificate, text: seq<nat>, v: Tree)
    requires Checked(d.lr, c)
    ensures Inv(d.lr, c, text, Start(v)) && Marked(d.lr, c, text, Start(v), 0)
  {
    hide Checked;
    CheckedMatches(d.lr, c);
  }

  /** The invariant together with some mark. */
  ghost predicate Safe(d: GlrTables, c: Certificate, text: seq<nat>, g: Glr) {
    exists mark :: Inv(d.lr, c, text, g) && Marked(d.lr, c, text, g, mark)
  }

  lemma SafeBy(d: GlrTables, c: Certificate, text: seq<nat>, g: Glr, mark: Ref)
    requires Inv(d.lr, c, text, g) && Marked(d.lr, c, text, g, mark)
    ensures Safe(d, c, text, g)
  {
  }

  /** In deterministic operation the top is the mark. */
  lemma LinearMark(d: GlrTables, c: Certificate, text: seq<nat>, g: Glr)
    requires Inv(d.lr, c, text, g) && g.split == NULL
    ensures Marked(d.lr, c, text, g, |g.cells| - 1)
  {
    hide Forest;
    ForestChecked(d.lr, c, text, g.cells);
    assert IsState(g.cells, |g.cells| - 1);
  }

  lemma TokenLexed(d: GlrTables, text: seq<nat>, i: nat)
    requires d.lr.Sized() && Lexed(d, text)
    ensures TokenAt(text, i) < d.lr.nTokens
  {
  }

  /** What the tables call for is sound. */
  lemma ReduceSound(d: GlrTables, c: Certificate, text: seq<nat>, g: Glr, k: nat, r: nat)
    requires ConflictsChecked(d, c) && Lexed(d, text) && CanReduce(d, text, g, k, r)
    ensures IsLive(g, k) && g.cells[g.tops[k]].lr < d.lr.NStates()
    ensures RulesMatch(d.lr, c) && ReductionSound(d.lr, c, g.cells[g.tops[k]].lr, r)
  {
    hide Checked;
    TokenLexed(d, text, g.pos);
    CalledSound(d, c, g.cells[g.tops[k]].lr, TokenAt(text, g.pos), r);
  }

  lemma ShiftSound(d: GlrTables, c: Certificate, text: seq<nat>, g: Glr, k: nat, s': nat)
    requires ConflictsChecked(d, c) && Lexed(d, text) && CanShift(d, text, g, k, s')
    ensures RulesMatch(d.lr, c) && Edge(d.lr, c, g.cells[g.tops[k]].lr, TokenAt(text, g.pos), s')
    ensures TokenAt(text, g.pos) < d.lr.nTokens && Symbol(d.lr, s') == TokenAt(text, g.pos)
  {
    hide Checked;
    TokenLexed(d, text, g.pos);
    CheckedAction(d.lr, c, g.cells[g.tops[k]].lr, TokenAt(text, g.pos));
  }

  lemma {:induction false} ShiftFirstKeeps(d: GlrTables, c: Certificate, text: seq<nat>, g: Glr, mark: Ref,
                                           targets: seq<nat>, n: nat)
    requires ConflictsChecked(d, c) && Lexed(d, text) && Inv(d.lr, c, text, g)
    requires |targets| == |g.tops| && AllShift(d, text, g, targets) && n <= |targets|
    requires g.split != NULL ==> Marked(d.lr, c, text, g, mark)
    ensures var g' := ShiftFirst(g, text, targets, n);
      && Core(d.lr, c, text, g') && TopsAt(g', n)
      && |g.cells| <= |g'.cells| && g'.cells[..|g.cells|] == g.cells && g'.tops[n..] == g.tops[n..]
      && (g.split != NULL ==> Marked(d.lr, c, text, g', mark))
    decreases n
  {
    hide Core, Marked, TopsAt, ConflictsChecked, Lexed, Edge, CanShift, ShiftToken;
    if n == 0 {
      NoShift(d, c, text, g);
    } else {
      ShiftFirstKeeps(d, c, text, g, mark, targets, n - 1);
      assert CanShift(d, text, g, n - 1, targets[n - 1]);
      ShiftNext(d, c, text, g, ShiftFirst(g, text, targets, n - 1), mark, n - 1, targets[n - 1]);
    }
  }

  /** One stack more shifts the token. */
  lemma ShiftNext(d: GlrTables, c: Certificate, text: seq<nat>, g: Glr, g': Glr, mark: Ref, k: nat, target: nat)
    requires ConflictsChecked(d, c) && Lexed(d, text) && CanShift(d, text, g, k, target)
    requires Core(d.lr, c, text, g') && TopsAt(g', k) && |g'.tops| == |g.tops| && g'.pos == g.pos && g'.split == g.split
    requires |g.cells| <= |g'.cells| && g'.cells[..|g.cells|] == g.cells && g'.tops[k..] == g.tops[k..]
    requires g.split != NULL ==> Marked(d.lr, c, text, g', mark)
    ensures var g'' := ShiftToken(g', k, target, g.pos + 1, TokenAt(text, g.pos));
      && Core(d.lr, c, text, g'') && TopsAt(g'', k + 1) && |g''.tops| == |g.tops|
      && |g.cells| <= |g''.cells| && g''.cells[..|g.cells|] == g.cells && g''.tops[k + 1..] == g.tops[k + 1..]
      && (g.split != NULL ==> Marked(d.lr, c, text, g'', mark))
  {
    hide Core, Marked, TopsAt, ConflictsChecked, Lexed, Edge;
    assert g'.tops[k..][0] == g.tops[k..][0];
    assert g'.cells[g.tops[k]] == g.cells[g.tops[k]];
    ShiftSound(d, c, text, g', k, target);
    ShiftKeeps(d.lr, c, text, g', k, target);
    if g.split != NULL { MarkedShift(d.lr, c, text, g', mark, k, target); }
    assert g'.tops[k..][1..] == g.tops[k + 1..];
  }

  lemma NoShift(d: GlrTables, c: Certificate, text: seq<nat>, g: Glr)
    requires Inv(d.lr, c, text, g)
    ensures Core(d.lr, c, text, g) && TopsAt(g, 0)
  {
  }

  /** The position moves on when all stacks have shifted. */
  lemma Shifted(d: GlrTables, c: Certificate, text: seq<nat>, g: Glr, mark: Ref)
    requires Core(d.lr, c, text, g) && TopsAt(g, |g.tops|)
    ensures Inv(d.lr, c, text, g.(pos := g.pos + 1))
    ensures Marked(d.lr, c, text, g, mark) ==> Marked(d.lr, c, text, g.(pos := g.pos + 1), mark)
  {
    hide Forest, NewAllOk;
  }

  lemma ShiftAllKeeps(d: GlrTables, c: Certificate, text: seq<nat>, g: Glr, targets: seq<nat>)
    requires ConflictsChecked(d, c) && Lexed(d, text) && Safe(d, c, text, g)
    requires |targets| == |g.tops| && AllShift(d, text, g, targets)
    ensures Safe(d, c, text, ShiftAll(g, text, targets))
  {
    hide Core, Marked, TopsAt, AllShift, ConflictsChecked;
    var mark :| Inv(d.lr, c, text, g) && Marked(d.lr, c, text, g, mark);
    ShiftFirstKeeps(d, c, text, g, mark, targets, |targets|);
    var g' := ShiftFirst(g, text, targets, |targets|);
    Shifted(d, c, text, g', mark);
    var g'' := ShiftAll(g, text, targets);
    if g.split == NULL {
      LinearMark(d, c, text, g'');
      SafeBy(d, c, text, g'', |g''.cells| - 1);
    } else {
      SafeBy(d, c, text, g'', mark);
    }
  }

  /** Every operation keeps the invariant, unless the grammar is cyclic. */
  lemma NextKeeps(d: GlrTables, c: Certificate, text: seq<nat>, g: Glr, g': Glr)
    requires ConflictsChecked(d, c) && Lexed(d, text) && !Cyclic(c.g)
    requires Safe(d, c, text, g) && Next(d, c, text, g, g')
    ensures Safe(d, c, text, g')
  {
    hide Inv, Marked, ConflictsChecked, Lexed, Cyclic, CanReduce, AllShift, GlrReturn.Resolution, Checked, SplitStack,
      Kill, ReduceDeferred, ReduceNow, GlrCompress.Compress;
    var mark :| Inv(d.lr, c, text, g) && Marked(d.lr, c, text, g, mark);
    if Forks(g, g') {
      var k: nat :| k < |g.tops| && IsLive(g, k) && g' == SplitStack(g, k);
      SplitStackKeeps(d.lr, c, text, g, k);
      MarkedSplit(d.lr, c, text, g, mark, k);
      SafeBy(d, c, text, g', mark);
    } else if Dies(d, text, g, g') {
      var k: nat :| CanDie(d, text, g, k) && g' == Kill(g, k);
      KillKeeps(d.lr, c, text, g, k);
      MarkedKill(d.lr, c, text, g, mark, k);
      SafeBy(d, c, text, g', mark);
    } else if Purges(g, g') {
      SurvivorsKeep(d.lr, c, text, g);
      MarkedSurvivors(d.lr, c, text, g, mark);
      SafeBy(d, c, text, g', mark);
    } else if Defers(d, text, g, g') {
      var k: nat, r: nat :| CanReduce(d, text, g, k, r) && DefersBy(d, g, g', k, r);
      ReduceSound(d, c, text, g, k, r);
      MarkedReduce(d.lr, c, text, g, mark, k, r);
      SafeBy(d, c, text, g', mark);
    } else if Reduces(d, text, g, g') {
      var r: nat :| CanReduce(d, text, g, 0, r) && ReducesBy(d, g, g', r);
      ReduceSound(d, c, text, g, 0, r);
      LiveTop(d, c, text, g);
      ReduceNowKeeps(d.lr, c, text, g, r);
      StaysLinear(d, g, r);
      LinearMark(d, c, text, g');
      SafeBy(d, c, text, g', |g'.cells| - 1);
    } else if Shifts(d, text, g, g') {
      var targets: seq<nat> :|
        |targets| == |g.tops| && AllShift(d, text, g, targets) && g' == ShiftAll(g, text, targets);
      ShiftAllKeeps(d, c, text, g, targets);
    } else {
      var after :| GlrReturn.Resolution(d.lr, c, text, g, after) && g' == GlrCompress.Compress(g.(cells := after));
      GlrReturn.ReturnKeeps(d.lr, c, text, g, after);
      LinearMark(d, c, text, g');
      SafeBy(d, c, text, g', |g'.cells| - 1);
    }
  }

  lemma LiveTop(d: GlrTables, c: Certificate, text: seq<nat>, g: Glr)
    requires Inv(d.lr, c, text, g) && g.split == NULL
    ensures |g.tops| == 1 && g.tops[0] == |g.cells| - 1
  {
    hide Forest;
  }

  lemma StaysLinear(d: GlrTables, g: Glr, r: nat)
    requires g.split == NULL && d.lr.Sized() && d.lr.IsRule(r) && d.lr.r2[r] < |g.cells| && |g.tops| == 1
    requires var b := g.cells[|g.cells| - 1 - d.lr.r2[r]]; b.StateCell? && b.lr < d.lr.NStates()
    ensures ReduceNow(d.lr, g, r).split == NULL
  {
  }

  /** A run from the empty stack. */
  ghost predicate Run(d: GlrTables, c: Certificate, text: seq<nat>, gs: seq<Glr>)
    decreases |gs|
  {
    && gs != []
    && (if |gs| == 1 then exists v :: gs[0] == Start(v)
        else Run(d, c, text, gs[..|gs| - 1]) && Next(d, c, text, gs[|gs| - 2], gs[|gs| - 1]))
  }

  /** Every configuration that a run reaches satisfies the invariant. */
  lemma {:induction false} RunSafe(d: GlrTables, c: Certificate, text: seq<nat>, gs: seq<Glr>)
    requires ConflictsChecked(d, c) && Lexed(d, text) && !Cyclic(c.g) && Run(d, c, text, gs)
    ensures Safe(d, c, text, gs[|gs| - 1])
    decreases |gs|
  {
    hide Inv, Marked, Next, Checked, Cyclic;
    if |gs| == 1 {
      var v :| gs[0] == Start(v);
      StartInv(d, c, text, v);
      SafeBy(d, c, text, gs[0], 0);
    } else {
      RunSafe(d, c, text, gs[..|gs| - 1]);
      NextKeeps(d, c, text, gs[|gs| - 2], gs[|gs| - 1]);
    }
  }

  /** A run that reaches the final state in deterministic operation has parsed a sentence: its stack
      holds a derivation of all tokens up to the end marker from the start symbol. */
  lemma AcceptedRun(d: GlrTables, c: Certificate, text: seq<nat>, gs: seq<Glr>)
    requires ConflictsChecked(d, c) && Lexed(d, text) && !Cyclic(c.g) && Run(d, c, text, gs)
    requires Accepting(d, gs[|gs| - 1])
    ensures Parsed(c, text, gs[|gs| - 1])
  {
    hide ConflictsChecked, Cyclic, Lexed, Safe, Accepting, Parsed, Next;
    RunSafe(d, c, text, gs);
    AcceptedSafe(d, c, text, gs[|gs| - 1]);
  }

  /** Deterministic operation in the final state. */
  predicate Accepting(d: GlrTables, g: Glr) {
    g.split == NULL && IsState(g.cells, |g.cells| - 1) && g.cells[|g.cells| - 1].lr == d.lr.final
  }

  /** The stack holds a derivation of all tokens delivered, up to the end marker, from the start symbol. */
  ghost predicate Parsed(c: Certificate, text: seq<nat>, g: Glr) {
    && |g.cells| == 3 && g.cells[1].StateCell? && g.cells[1].sem.Val? && |c.g| > ACCEPT && |c.g[ACCEPT].rhs| == 2
    && var v := g.cells[1].sem.tree;
      Derivation(c.g, v) && Root(c.g, v) == c.g[ACCEPT].rhs[0] && Yield(v) + [EOF] == Delivered(text, g.pos)
  }

  lemma AcceptedSafe(d: GlrTables, c: Certificate, text: seq<nat>, g: Glr)
    requires Safe(d, c, text, g) && Accepting(d, g)
    ensures Parsed(c, text, g)
  {
    hide Inv, Marked;
    var mark :| Inv(d.lr, c, text, g) && Marked(d.lr, c, text, g, mark);
    AcceptedIsSentence(d.lr, c, text, g);
  }
}
