/** The assertion of `yyprocessOneStack` that no stack is in the final state. Stacks that are alive at the same
    time differ in their state or in what it lies on, so that only one of them can shift the end marker. */
module GlrFinal {
  import opened Grammar
  import opened LrTables
  import opened GlrForest
  import opened GlrMachine
  import opened GlrCyclic
  import opened GlrRun
  import opened GlrStack
  import opened GlrProcess
  import opened UnitSteps

  /** Stacks `i` and `j`, if both are alive, differ in their state or in the state below it. */
  ghost predicate Apart(g: Glr, i: nat, j: nat) {
    IsLive(g, i) && IsLive(g, j) ==>
      g.cells[g.tops[i]].lr != g.cells[g.tops[j]].lr || g.cells[g.tops[i]].pred != g.cells[g.tops[j]].pred
  }

  /** All stacks but number `k` are apart from one another. */
  ghost predicate AllApart(g: Glr, k: int) {
    forall i: nat, j: nat | i < j < |g.tops| && i != k && j != k :: Apart(g, i, j)
  }

  ghost predicate NoneFinal(t: Tables, g: Glr) {
    forall j: nat | IsLive(g, j) :: g.cells[g.tops[j]].lr != t.final
  }

  /** No stack is in the final state, and all but number `k` are apart. */
  ghost predicate Calm(t: Tables, g: Glr, k: int) {
    NoneFinal(t, g) && AllApart(g, k)
  }

  /** The final state is entered on the end marker only. */
  lemma IntoFinal(t: Tables, c: Certificate, p: nat, x: nat)
    requires Checked(t, c) && Edge(t, c, p, x, t.final)
    ensures x == EOF
  {
  }

  /** Where the search for a state to merge with finds nothing, no other stack ends in such a state. */
  lemma {:induction false} NothingToMerge(cells: Cells, tops: seq<Ref>, k: nat, i: nat, base: Ref, split: Ref,
                                          posn: nat, lr: nat, j: nat)
    requires MergeTarget(cells, tops, k, i, base, split, posn, lr) == NULL && i <= j < |tops| && j != k
    requires tops[j] != NULL
    requires IsState(cells, tops[j]) && tops[j] != split && cells[tops[j]].posn >= posn && cells[tops[j]].pred < tops[j]
    ensures cells[tops[j]].lr != lr || cells[tops[j]].pred != base
    decreases |tops| - i
  {
    if i < j { NothingToMerge(cells, tops, k, i + 1, base, split, posn, lr, j); }
  }

  /** A deferred reduction sets the stack apart from all others. */
  lemma ReducedApart(d: GlrTables, c: Certificate, text: seq<nat>, g: Glr, k: nat, r: nat)
    requires Ready(d, c, text, g, k) && g.split != NULL && CanReduce(d, text, g, k, r) && Calm(d.lr, g, k)
    ensures Calm(d.lr, Reduced(d.lr, g, k, r), NULL)
  {
    hide ConflictsChecked, Lexed, Cyclic, Safe, CanReduce, InConflict, Inv, Checked, ReductionSound, SameStack, Edge,
      MergeTarget;
    ReduceStep(d, c, text, g, k, r);
    SafeFacts(d, c, text, g, k);
    SafeTops(d, c, text, g);
    var base := Base(d.lr, g, k, r);
    var lr, posn := Target(d.lr, g.cells[base].lr, d.lr.r1[r]), g.cells[g.tops[k]].posn;
    var m := MergeTarget(g.cells, g.tops, k, 0, base, Lowered(g.split, base), posn, lr);
    var g' := Reduced(d.lr, g, k, r);
    NewState(d.lr, c, text, g, k, r);
    if m != NULL {
      MergedApart(d.lr, g, g', k, m, r);
    } else {
      forall j: nat | IsLive(g, j) && j != k
        ensures g.cells[g.tops[j]].lr != lr || g.cells[g.tops[j]].pred != base
      {
        TopPlace(d.lr, c, text, g, j, k);
        if g.cells[g.tops[j]].pred == base {
          NothingToMerge(g.cells, g.tops, k, 0, base, Lowered(g.split, base), posn, lr, j);
        }
      }
      PushedApart(d.lr, g, g', k, lr, base);
    }
  }

  /** The state pushed by a reduction is not final. */
  lemma NewState(t: Tables, c: Certificate, text: seq<nat>, g: Glr, k: nat, r: nat)
    requires Inv(t, c, text, g) && IsLive(g, k) && RulesMatch(t, c) && Checked(t, c)
    requires g.cells[g.tops[k]].lr < t.NStates() && ReductionSound(t, c, g.cells[g.tops[k]].lr, r)
    ensures t.Sized() && t.IsRule(r) && IsState(g.cells, Base(t, g, k, r)) && g.cells[Base(t, g, k, r)].lr < t.NStates()
    ensures Target(t, g.cells[Base(t, g, k, r)].lr, t.r1[r]) != t.final
  {
    hide Forest, Checked, ReductionSound, Edge, SplitOk;
    var v := ReduceInForest(t, c, text, g.cells, g.tops[k], r);
    var b := Base(t, g, k, r);
    EdgeSymbol(t, c, g.cells[b].lr, t.r1[r], t.Goto(g.cells[b].lr, t.r1[r]));
    if t.Goto(g.cells[b].lr, t.r1[r]) == t.final { IntoFinal(t, c, g.cells[b].lr, t.r1[r]); }
  }

  lemma TopPlace(t: Tables, c: Certificate, text: seq<nat>, g: Glr, j: nat, k: nat)
    requires Inv(t, c, text, g) && IsLive(g, j) && IsLive(g, k)
    ensures g.cells[g.tops[j]].posn == g.cells[g.tops[k]].posn && g.cells[g.tops[j]].pred < g.tops[j]
    ensures g.split != NULL ==> g.split <= g.tops[j]
  {
    hide Forest;
    Below(t, c, text, g.cells, g.tops[j]);
    CoreForest(t, c, text, g);
    assert StepsDown(g.cells, g.tops[j]);
  }

  lemma MergedApart(t: Tables, g: Glr, g': Glr, k: nat, m: Ref, r: nat)
    requires Calm(t, g, k) && k < |g.tops| && IsState(g.cells, m) && g'.tops == g.tops[k := NULL]
    requires g'.cells == WithOption(g.cells, m, g.tops[k], r)
    requires forall j: nat | j < |g.tops| && g.tops[j] != NULL :: IsState(g.cells, g.tops[j])
    ensures Calm(t, g', NULL)
  {
    forall i: nat, j: nat | i < j < |g'.tops|
      ensures Apart(g', i, j)
    {
      if i != k && j != k { assert Apart(g, i, j); }
    }
  }

  lemma PushedApart(t: Tables, g: Glr, g': Glr, k: nat, lr: nat, base: Ref)
    requires Calm(t, g, k) && k < |g.tops| && g'.tops == g.tops[k := |g.cells|] && lr != t.final
    requires |g.cells| < |g'.cells| && g'.cells[..|g.cells|] == g.cells && IsState(g'.cells, |g.cells|)
    requires g'.cells[|g.cells|].lr == lr && g'.cells[|g.cells|].pred == base
    requires forall j: nat | j < |g.tops| && g.tops[j] != NULL :: IsState(g.cells, g.tops[j])
    requires forall j: nat | IsLive(g, j) && j != k :: g.cells[g.tops[j]].lr != lr || g.cells[g.tops[j]].pred != base
    ensures Calm(t, g', NULL)
  {
    forall j: nat | IsLive(g', j) && j != k
      ensures IsLive(g, j) && g'.cells[g'.tops[j]] == g.cells[g.tops[j]]
    {
      assert g.tops[j] != NULL;
      assert g'.cells[..|g.cells|][g.tops[j]] == g.cells[g.tops[j]];
    }
    forall i: nat, j: nat | i < j < |g'.tops|
      ensures Apart(g', i, j)
    {
      if i != k && j != k { assert Apart(g, i, j); }
    }
  }

  lemma SplitApart(t: Tables, g: Glr, k: nat)
    requires Calm(t, g, NULL) && k < |g.tops|
    ensures Calm(t, SplitStack(g, k), |g.tops|)
  {
    var g' := SplitStack(g, k);
    forall j: nat | IsLive(g', j)
      ensures g'.cells[g'.tops[j]].lr != t.final
    {
      if j < |g.tops| { assert IsLive(g, j); } else { assert IsLive(g, k); }
    }
    forall i: nat, j: nat | i < j < |g.tops|
      ensures Apart(g', i, j)
    {
      assert Apart(g, i, j);
    }
  }

  lemma KillApart(t: Tables, g: Glr, k: nat)
    requires Calm(t, g, NULL) && k < |g.tops|
    ensures Calm(t, Kill(g, k), NULL)
  {
    var g' := Kill(g, k);
    forall i: nat, j: nat | i < j < |g'.tops|
      ensures Apart(g', i, j)
    {
      if i != k && j != k { assert Apart(g, i, j); }
    }
    forall j: nat | IsLive(g', j)
      ensures g'.cells[g'.tops[j]].lr != t.final
    {
      assert IsLive(g, j);
    }
  }

  lemma CalmBut(t: Tables, g: Glr, k: int)
    requires Calm(t, g, NULL)
    ensures Calm(t, g, k)
  {
  }

  /** What becomes of a stack, as far as the final state is concerned. */
  ghost predicate StaysCalm(t: Tables, r: Result) {
    r != Final && (r.Ends? ==> Calm(t, r.p.g, NULL))
  }

  /** Processing a stack never meets the final state, and leaves all stacks apart. */
  lemma {:induction false} ProcessCalm(d: GlrTables, c: Certificate, sup: Supply, text: seq<nat>, p: Point, k: nat,
                                       fuel: nat)
    requires Ready(d, c, text, p.g, k) && Calm(d.lr, p.g, NULL)
    ensures StaysCalm(d.lr, Process(d, sup, text, p, k, fuel))
    decreases fuel, 1, 0
  {
    hide ConflictsChecked, Lexed, Cyclic, Safe, Progress, Settled, SameStack, Kill, d.Listed, d.lr.Sized, Follow,
      ReduceOn, Checked, InConflict, Called, Calm, Process;
    var g := p.g;
    ProcessStart(d, sup, text, p, k, fuel);
    if g.tops[k] != NULL {
      StateFacts(d, c, text, g, k);
      if fuel > 0 {
        ProcessStep(d, sup, text, p, k, fuel);
        var s, token := StateOf(d, g, k), TokenAt(text, g.pos);
        CalmState(d.lr, g, k);
        CalmBut(d.lr, g, k);
        if d.lr.IsDefaulted(s) {
          match d.lr.Default(s)
          case ReduceBy(r) =>
            DefaultCalled(d, s, token, r);
            assert CanReduce(d, text, g, k, r);
            ReduceOnCalm(d, c, sup, text, p, k, r, fuel - 1);
          case _ => KillApart(d.lr, g, k);
        } else {
          FollowStart(d, s, token);
          FollowCalm(d, c, sup, text, p, k, d.ConflictAt(s, token), fuel - 1);
          var v := Follow(d, sup, text, p, k, d.ConflictAt(s, token), fuel - 1);
          if v.Ends? {
            Followed(d, c, sup, text, p, v.p, k, d.ConflictAt(s, token), fuel - 1);
            CalmBut(d.lr, v.p.g, k);
            match d.lr.Action(s, token)
            case ShiftTo(target) =>
            case Fail => KillApart(d.lr, v.p.g, k);
            case ReduceBy(r) =>
              ActionCalled(d, s, token, r);
              assert CanReduce(d, text, v.p.g, k, r);
              ReduceOnCalm(d, c, sup, text, v.p, k, r, fuel - 1);
          }
        }
      }
    }
  }

  lemma CalmState(t: Tables, g: Glr, k: nat)
    requires Calm(t, g, NULL) && IsLive(g, k)
    ensures g.cells[g.tops[k]].lr != t.final
  {
  }

  lemma {:induction false} ReduceOnCalm(d: GlrTables, c: Certificate, sup: Supply, text: seq<nat>, p: Point, k: nat,
                                        r: nat, fuel: nat)
    requires Ready(d, c, text, p.g, k) && p.g.split != NULL && CanReduce(d, text, p.g, k, r) && Calm(d.lr, p.g, k)
    ensures StaysCalm(d.lr, ReduceOn(d, sup, text, p, k, r, fuel))
    decreases fuel, 1, 1
  {
    hide ConflictsChecked, Lexed, Cyclic, Safe, SameStack, Reduced, Process, Checked, InConflict, CanReduce, Calm;
    ReduceStep(d, c, text, p.g, k, r);
    ReducedApart(d, c, text, p.g, k, r);
    var v := Reducing(d, sup, p, k, r);
    if v.Ends? { ProcessCalm(d, c, sup, text, v.p, k, fuel); }
  }

  lemma {:induction false} FollowCalm(d: GlrTables, c: Certificate, sup: Supply, text: seq<nat>, p: Point, k: nat,
                                      i: nat, fuel: nat)
    requires Ready(d, c, text, p.g, k) && p.g.tops[k] != NULL && StateOf(d, p.g, k) != d.lr.final
    requires Calm(d.lr, p.g, NULL)
    requires ToFollow(d, StateOf(d, p.g, k), TokenAt(text, p.g.pos), i)
    ensures StaysCalm(d.lr, Follow(d, sup, text, p, k, i, fuel))
    decreases fuel, 2, |d.confl| - i
  {
    hide ConflictsChecked, Lexed, Cyclic, Safe, Progress, Settled, SameStack, d.Listed, d.lr.Sized, Forked, Checked,
      InConflict, Called, ToFollow, Calm;
    if i < |d.confl| && d.confl[i] != 0 {
      FollowNext(d, StateOf(d, p.g, k), TokenAt(text, p.g.pos), i);
      ForkedCalm(d, c, sup, text, p, k, d.confl[i], fuel);
      var v := Forked(d, sup, text, p, k, d.confl[i], fuel);
      if v.Ends? {
        ForkedFacts(d, c, sup, text, p, v.p, k, d.confl[i], fuel);
        FollowCalm(d, c, sup, text, v.p, k, i + 1, fuel);
      }
    }
  }

  lemma {:induction false} ForkedCalm(d: GlrTables, c: Certificate, sup: Supply, text: seq<nat>, p: Point, k: nat,
                                      r: nat, fuel: nat)
    requires Ready(d, c, text, p.g, k) && p.g.tops[k] != NULL && d.lr.Sized() && Calm(d.lr, p.g, NULL)
    requires StateOf(d, p.g, k) != d.lr.final && StateOf(d, p.g, k) < d.lr.NStates()
    requires Called(d, StateOf(d, p.g, k), TokenAt(text, p.g.pos), r)
    ensures StaysCalm(d.lr, Forked(d, sup, text, p, k, r, fuel))
    decreases fuel, 1, 2
  {
    hide ConflictsChecked, Lexed, Cyclic, Safe, SameStack, ReduceOn, Reduced, Called, InConflict, SplitStack, Calm,
      CanReduce;
    ForkStep(d, c, text, p.g, k, r);
    SplitApart(d.lr, p.g, k);
    ReduceOnCalm(d, c, sup, text, p.(g := SplitStack(p.g, k)), |p.g.tops|, r, fuel);
  }

  lemma {:induction false} ProcessFromCalm(d: GlrTables, c: Certificate, sup: Supply, text: seq<nat>, p: Point, k: nat,
                                           rounds: nat, fuel: nat)
    requires ConflictsChecked(d, c) && Lexed(d, text) && !Cyclic(c.g) && Safe(d, c, text, p.g) && Calm(d.lr, p.g, NULL)
    requires k <= |p.g.tops| && (p.g.split != NULL || (k == 0 && InConflict(d, text, p.g, 0)))
    ensures StaysCalm(d.lr, ProcessFrom(d, sup, text, p, k, rounds, fuel))
    decreases rounds
  {
    hide ConflictsChecked, Lexed, Cyclic, Safe, Progress, Settled, Process, InConflict, Calm;
    if p.g.split == NULL { ConflictLive(d, text, p.g, 0); }
    if k < |p.g.tops| && rounds > 0 {
      ProcessCalm(d, c, sup, text, p, k, fuel);
      var v := Process(d, sup, text, p, k, fuel);
      if v.Ends? {
        ProcessKeeps(d, c, sup, text, p, k, fuel);
        ProgressPart(d, text, p.g, v.p.g, k);
        ProcessFromCalm(d, c, sup, text, v.p, k + 1, rounds - 1, fuel);
      }
    }
  }

  lemma {:induction false} SurvivorsApart(cells: Cells, tops: seq<Ref>)
    requires AllApart(Glr(cells, tops, NULL, 0), NULL)
    ensures AllApart(Glr(cells, Survivors(tops), NULL, 0), NULL)
    decreases |tops|
  {
    if tops != [] {
      var n: nat := |tops| - 1;
      var g, g1, g' := Glr(cells, tops, NULL, 0), Glr(cells, tops[..n], NULL, 0), Glr(cells, Survivors(tops), NULL, 0);
      forall i: nat, j: nat | i < j < n
        ensures Apart(g1, i, j)
      {
        assert Apart(g, i, j);
      }
      SurvivorsApart(cells, tops[..n]);
      var rest := Survivors(tops[..n]);
      forall i: nat, j: nat | i < j < |g'.tops|
        ensures Apart(g', i, j)
      {
        if j < |rest| {
          assert Apart(Glr(cells, rest, NULL, 0), i, j);
        } else {
          assert rest[i] in tops[..n];
          var h: nat :| h < n && tops[h] == rest[i];
          assert Apart(g, h, n);
        }
      }
    }
  }

  /** What is left when the dead stacks are dropped. */
  lemma SurvivorsCalm(t: Tables, g: Glr)
    requires Calm(t, g, NULL)
    ensures Calm(t, g.(tops := Survivors(g.tops)), NULL)
  {
    hide Survivors;
    var g' := g.(tops := Survivors(g.tops));
    var h, h' := Glr(g.cells, g.tops, NULL, 0), Glr(g.cells, g'.tops, NULL, 0);
    forall i: nat, j: nat | i < j < |h.tops|
      ensures Apart(h, i, j)
    {
      assert Apart(g, i, j);
    }
    SurvivorsApart(g.cells, g.tops);
    forall i: nat, j: nat | i < j < |g'.tops|
      ensures Apart(g', i, j)
    {
      assert Apart(h', i, j);
    }
    forall j: nat | IsLive(g', j)
      ensures g'.cells[g'.tops[j]].lr != t.final
    {
      assert g'.tops[j] in Survivors(g.tops);
      var i: nat :| i < |g.tops| && g.tops[i] == g'.tops[j];
      assert IsLive(g, i);
    }
  }

  /** What the first `n` shifts have pushed. */
  lemma {:induction false} ShiftedCells(g: Glr, text: seq<nat>, targets: seq<nat>, n: nat, j: nat)
    requires n <= |targets| == |g.tops| && j < |g.tops|
    ensures var g' := ShiftFirst(g, text, targets, n);
      && |g.cells| <= |g'.cells|
      && (j >= n ==> g'.tops[j] == g.tops[j])
      && (j < n ==>
          && IsState(g'.cells, g'.tops[j]) && |g.cells| <= g'.tops[j]
          && g'.cells[g'.tops[j]].lr == targets[j] && g'.cells[g'.tops[j]].pred == g.tops[j])
      && g'.cells[..|g.cells|] == g.cells
    decreases n
  {
    if n > 0 {
      ShiftedCells(g, text, targets, n - 1, j);
      if j != n - 1 { ShiftedCells(g, text, targets, n - 1, n - 1); }
    }
  }

  /** Stacks that have shifted are apart, as they lie on different states. */
  lemma ShiftedApart(t: Tables, g: Glr, text: seq<nat>, targets: seq<nat>)
    requires |targets| == |g.tops| && AllApart(g, NULL) && forall j: nat | j < |g.tops| :: IsLive(g, j)
    ensures AllApart(ShiftAll(g, text, targets), NULL)
  {
    hide ShiftFirst;
    var g' := ShiftAll(g, text, targets);
    forall i: nat, j: nat | i < j < |g'.tops|
      ensures Apart(g', i, j)
    {
      assert Apart(g, i, j);
      ShiftedCells(g, text, targets, |targets|, i);
      ShiftedCells(g, text, targets, |targets|, j);
    }
  }

  /** The final state lies two states above the bottom. */
  lemma FinalPlace(t: Tables, c: Certificate, text: seq<nat>, cells: Cells, i: Ref)
    requires Forest(t, c, text, cells) && IsState(cells, i) && cells[i].lr == t.final
    ensures i > 0 && IsState(cells, cells[i].pred) && cells[i].pred > 0 && cells[cells[i].pred].pred == 0
  {
    hide Checked, Edge, Forest, Spans, DerivesSpan;
    ForestChecked(t, c, text, cells);
    PathOk(t, c, text, cells, i);
    FinalStack(t, c, Path(cells, i));
    Below(t, c, text, cells, i);
    var p := cells[i].pred;
    if i > 0 {
      Below(t, c, text, cells, p);
      if p > 0 { Below(t, c, text, cells, cells[p].pred); }
    }
  }

  /** Stack `j` shifts the token: what it shifts to, and where that comes to lie. */
  lemma ShiftedState(d: GlrTables, c: Certificate, text: seq<nat>, g: Glr, targets: seq<nat>, j: nat)
    requires ConflictsChecked(d, c) && Lexed(d, text) && |targets| == |g.tops| && AllShift(d, text, g, targets)
    requires j < |g.tops|
    ensures var g' := ShiftAll(g, text, targets);
      && IsLive(g', j) && g'.cells[g'.tops[j]].lr == targets[j] && g'.cells[g'.tops[j]].pred == g.tops[j]
      && IsLive(g, j) && IsState(g'.cells, g.tops[j]) && g'.cells[g.tops[j]] == g.cells[g.tops[j]] && d.lr.Sized()
      && g.cells[g.tops[j]].lr < d.lr.NStates()
      && d.lr.Action(g.cells[g.tops[j]].lr, TokenAt(text, g.pos)) == ShiftTo(targets[j])
      && g.cells[g.tops[j]].lr != d.lr.final && (targets[j] == d.lr.final ==> TokenAt(text, g.pos) == EOF)
  {
    hide ConflictsChecked, Checked, Lexed, Edge, ShiftFirst, d.lr.Action;
    assert CanShift(d, text, g, j, targets[j]);
    ShiftedCells(g, text, targets, |targets|, j);
    var g' := ShiftAll(g, text, targets);
    assert g'.cells[..|g.cells|][g.tops[j]] == g.cells[g.tops[j]];
    ShiftSound(d, c, text, g, j, targets[j]);
    if targets[j] == d.lr.final { EntersFinal(d, c, g.cells[g.tops[j]].lr, TokenAt(text, g.pos)); }
  }

  lemma EntersFinal(d: GlrTables, c: Certificate, p: nat, x: nat)
    requires ConflictsChecked(d, c) && Edge(d.lr, c, p, x, d.lr.final)
    ensures x == EOF
  {
    hide Checked, Edge;
    IntoFinal(d.lr, c, p, x);
  }

  /** Two stacks cannot both shift the end marker. */
  lemma OneEnds(d: GlrTables, c: Certificate, text: seq<nat>, g: Glr)
    requires ConflictsChecked(d, c) && Lexed(d, text) && Safe(d, c, text, g) && d.lr.Sized() && EndsOnce(d.lr)
    requires AllApart(g, NULL) && AllShift(d, text, g, Targets(d, text, g)) && TokenAt(text, g.pos) == EOF
    ensures |g.tops| <= 1
  {
    hide ConflictsChecked, Lexed, Safe, AllShift, ShiftFirst, Inv, Checked, RulesMatch, d.lr.Sized;
    if |g.tops| >= 2 {
      assert Apart(g, 0, 1);
      var targets := Targets(d, text, g);
      ShiftAllKeeps(d, c, text, g, targets);
      var g' := ShiftAll(g, text, targets);
      SafeForest(d, c, text, g');
      ShiftedState(d, c, text, g, targets, 0);
      ShiftedState(d, c, text, g, targets, 1);
      assert ShiftsEnd(d.lr, g.cells[g.tops[0]].lr) && ShiftsEnd(d.lr, g.cells[g.tops[1]].lr);
      FinalPlace(d.lr, c, text, g'.cells, g'.tops[0]);
      FinalPlace(d.lr, c, text, g'.cells, g'.tops[1]);
    }
  }

  lemma SafeForest(d: GlrTables, c: Certificate, text: seq<nat>, g: Glr)
    requires Safe(d, c, text, g)
    ensures Forest(d.lr, c, text, g.cells)
  {
    hide Forest, Marked;
  }

  /** Of several stacks that shift, none comes to the final state. */
  lemma ShiftedCalm(d: GlrTables, c: Certificate, text: seq<nat>, g: Glr)
    requires ConflictsChecked(d, c) && Lexed(d, text) && Safe(d, c, text, g) && d.lr.Sized() && EndsOnce(d.lr)
    requires Calm(d.lr, g, NULL) && AllShift(d, text, g, Targets(d, text, g)) && |g.tops| >= 2
    ensures Calm(d.lr, ShiftAll(g, text, Targets(d, text, g)), NULL)
  {
    hide ConflictsChecked, Lexed, Safe, AllShift, ShiftFirst, EndsOnce, d.lr.Sized;
    var targets := Targets(d, text, g);
    var g' := ShiftAll(g, text, targets);
    if TokenAt(text, g.pos) == EOF { OneEnds(d, c, text, g); }
    forall j: nat | j < |g.tops|
      ensures IsLive(g, j) && IsLive(g', j) && g'.cells[g'.tops[j]].lr != d.lr.final
    {
      ShiftedState(d, c, text, g, targets, j);
    }
    ShiftedApart(d.lr, g, text, targets);
  }

  /** A round never meets the final state; if several stacks are left, the next one will not either. */
  lemma RoundCalm(d: GlrTables, c: Certificate, sup: Supply, text: seq<nat>, p: Point, fuel: nat)
    requires ConflictsChecked(d, c) && Lexed(d, text) && !Cyclic(c.g) && d.lr.Sized() && EndsOnce(d.lr)
    requires Safe(d, c, text, p.g) && Calm(d.lr, p.g, NULL) && (p.g.split != NULL || InConflict(d, text, p.g, 0))
    ensures var r := RoundOn(d, sup, text, p, fuel);
      r != Final && (r.Ends? && |r.p.g.tops| != 1 ==> Calm(d.lr, r.p.g, NULL))
  {
    hide ConflictsChecked, Lexed, Cyclic, Safe, EndsOnce, Settled, AllShift, Calm, ProcessFrom, Shifting, ShiftAll,
      Survivors, InConflict, d.lr.Sized, Targets;
    ProcessFromCalm(d, c, sup, text, p, 0, fuel, fuel);
    var v := ProcessFrom(d, sup, text, p, 0, fuel, fuel);
    if v.Ends? {
      ProcessFromKeeps(d, c, sup, text, p, 0, fuel, fuel);
      SurvivorsSettled(d, c, text, v.p.g);
      SurvivorsCalm(d.lr, v.p.g);
      var g := v.p.g.(tops := Survivors(v.p.g.tops));
      if g.tops != [] {
        AllSettledShift(d, text, g);
        ShiftingAccounted(sup, text, g, Targets(d, text, g), 0, v.p.m);
        FirstShift(g, text, Targets(d, text, g));
        if |g.tops| >= 2 { ShiftedCalm(d, c, text, g); }
      }
    }
  }
}
