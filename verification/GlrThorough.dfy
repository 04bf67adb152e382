/** Processing the stacks of a round takes up everything that the tables call for. */
module GlrThorough {
  import opened Grammar
  import opened LrTables
  import opened GlrForest
  import opened GlrMachine
  import opened GlrCyclic
  import opened GlrRun
  import opened GlrStack
  import opened GlrProcess
  import opened GlrReach
  import opened GlrWork
  import opened GlrPursuit
  import opened UnitSteps

  /** Nothing but the default action is called for where there is one. */
  lemma DefaultOnly(d: GlrTables, c: Certificate, s: nat, token: nat)
    requires ConflictsChecked(d, c) && d.lr.Sized() && s < d.lr.NStates() && d.lr.IsDefaulted(s)
    ensures d.lr.Action(s, token) == d.lr.Default(s) && !d.lr.Default(s).ShiftTo?
    ensures forall r | Called(d, s, token, r) :: d.lr.Default(s) == ReduceBy(r)
  {
    hide Checked;
    assert d.Listed(0) == [];
  }

  /** The state on top of stack `k` has been taken up. */
  lemma TakenBy(d: GlrTables, text: seq<nat>, gs: seq<Glr>, g: Glr, g': Glr, k: nat, x0: Ref)
    requires Segment(d, text, gs, g, g', k, |g.tops|, x0) && IsLive(g, k) && x0 == g.tops[k]
    requires d.lr.Sized() && g.cells[x0].lr < d.lr.NStates()
    requires forall r | Called(d, g.cells[x0].lr, TokenAt(text, g.pos), r) :: ReducedIn(d, gs, x0, r)
    requires d.lr.Action(g.cells[x0].lr, TokenAt(text, g.pos)).ShiftTo? ==> k < |g'.tops| && g'.tops[k] == x0
    ensures Segment(d, text, gs, g, g', k, |g.tops|, NULL)
  {
    hide Works, ReducedIn, Called, d.lr.Sized, d.lr.Action, Steady;
    SegmentEnds(d, text, gs, g, g', k, |g.tops|, x0);
    assert Continues(g.cells, g'.cells, x0);
    assert TakenUp(d, text, gs, k, |g.tops|, x0);
    NothingLeft(d, text, gs, g, g', k, |g.tops|, x0);
  }

  /** A deferred reduction changes no state but for its options. */
  lemma ReducedExtends(t: Tables, g: Glr, k: nat, r: nat)
    requires t.Sized() && t.IsRule(r) && IsLive(g, k)
    requires IsState(g.cells, Base(t, g, k, r)) && g.cells[Base(t, g, k, r)].lr < t.NStates()
    ensures GlrWork.Extends(g.cells, ReduceDeferred(t, g, k, r).cells)
    ensures forall j | 0 <= j < |g.tops| && j != k :: ReduceDeferred(t, g, k, r).tops[j] == g.tops[j]
  {
    hide MergeTarget, Climb, GlrWork.Extends;
    var base := Base(t, g, k, r);
    var m := Merging(t, g, k, r);
    if m != NULL {
      OptionExtends(g.cells, m, g.tops[k], r);
    } else {
      var lr := Target(t, g.cells[base].lr, t.r1[r]);
      var pushed := WithState(g.cells, lr, base, g.cells[g.tops[k]].posn, Chain(NULL));
      StateExtends(g.cells, lr, base, g.cells[g.tops[k]].posn, Chain(NULL));
      OptionExtends(pushed, |g.cells|, g.tops[k], r);
      ExtendsOn(g.cells, pushed, WithOption(pushed, |g.cells|, g.tops[k], r));
    }
  }

  lemma NoneLooked(d: GlrTables, text: seq<nat>, g: Glr, x0: Ref)
    ensures Segment(d, text, [g], g, g, |g.tops|, |g.tops|, x0)
  {
    hide Works, TakenUp;
    ExtendsSelf(g.cells);
  }

  lemma {:induction false} ProcessThorough(d: GlrTables, c: Certificate, sup: Supply, text: seq<nat>, p: Point, k: nat,
                                           fuel: nat)
    returns (gs: seq<Glr>)
    requires Ready(d, c, text, p.g, k) && Process(d, sup, text, p, k, fuel).Ends?
    ensures Segment(d, text, gs, p.g, Process(d, sup, text, p, k, fuel).p.g, k, |p.g.tops|, NULL)
    decreases fuel, 1, 0
  {
    hide ConflictsChecked, Lexed, Cyclic, Safe, Progress, Settled, SameStack, Kill, d.Listed, d.lr.Sized, Follow,
      ReduceOn, Checked, InConflict, Called, Process, Segment, Trail, ReducedIn;
    var g := p.g;
    ProcessStart(d, sup, text, p, k, fuel);
    if g.tops[k] == NULL {
      gs := [g];
      OnlyTop(d, text, g, k);
    } else {
      StateFacts(d, c, text, g, k);
      ProcessStep(d, sup, text, p, k, fuel);
      var s, token, x0 := StateOf(d, g, k), TokenAt(text, g.pos), g.tops[k];
      if d.lr.IsDefaulted(s) {
        DefaultOnly(d, c, s, token);
        if d.lr.Default(s).ReduceBy? {
          var r := d.lr.Default(s).rule;
          DefaultCalled(d, s, token, r);
          assert CanReduce(d, text, g, k, r);
          gs := ReduceOnThorough(d, c, sup, text, p, k, r, fuel - 1);
        } else {
          assert CanDie(d, text, g, k);
          gs := [g, Kill(g, k)];
          GivenUp(d, text, g, k);
        }
        TakenBy(d, text, gs, g, Process(d, sup, text, p, k, fuel).p.g, k, x0);
      } else {
        gs := TurnThorough(d, c, sup, text, p, k, fuel);
      }
    }
  }

  /** A state that looks at the token: first all conflicting rules, then its action. */
  lemma {:induction false} TurnThorough(d: GlrTables, c: Certificate, sup: Supply, text: seq<nat>, p: Point, k: nat,
                                        fuel: nat)
    returns (gs: seq<Glr>)
    requires Ready(d, c, text, p.g, k) && p.g.tops[k] != NULL && fuel > 0 && d.lr.Sized()
    requires StateOf(d, p.g, k) < d.lr.NStates() && !d.lr.IsDefaulted(StateOf(d, p.g, k))
    requires Process(d, sup, text, p, k, fuel).Ends?
    ensures Segment(d, text, gs, p.g, Process(d, sup, text, p, k, fuel).p.g, k, |p.g.tops|, NULL)
    decreases fuel, 0, 1
  {
    hide ConflictsChecked, Lexed, Cyclic, Safe, Progress, Settled, SameStack, Kill, d.Listed, d.lr.Sized, Follow,
      ReduceOn, Checked, InConflict, Process, Segment, Trail, ReducedIn;
    var g, b := p.g, |p.g.tops|;
    StateFacts(d, c, text, g, k);
    ProcessStep(d, sup, text, p, k, fuel);
    var s, token, x0 := StateOf(d, g, k), TokenAt(text, g.pos), g.tops[k];
    FollowStart(d, s, token);
    var start := d.ConflictAt(s, token);
    var v := Follow(d, sup, text, p, k, start, fuel - 1);
    Followed(d, c, sup, text, p, v.p, k, start, fuel - 1);
    var fs := FollowThorough(d, c, sup, text, p, k, start, fuel - 1);
    var g1 := v.p.g;
    SegmentEnds(d, text, fs, g, g1, b, b, x0);
    var hs: seq<Glr>;
    match d.lr.Action(s, token) {
      case ShiftTo(_) =>
        hs := [g1];
        OnlyTop(d, text, g1, k);
      case Fail =>
        assert CanDie(d, text, g1, k);
        hs := [g1, Kill(g1, k)];
        GivenUp(d, text, g1, k);
      case ReduceBy(r) =>
        ActionCalled(d, s, token, r);
        assert CanReduce(d, text, g1, k, r);
        hs := ReduceOnThorough(d, c, sup, text, v.p, k, r, fuel - 1);
    }
    var g' := Process(d, sup, text, p, k, fuel).p.g;
    JoinFollow(d, text, fs, hs, g, g1, g', b, k, x0);
    gs := Joined(fs, hs);
    forall r | Called(d, s, token, r)
      ensures ReducedIn(d, gs, x0, r)
    {
      if r in d.Listed(start) { ReducedFirst(d, fs, hs, x0, r); } else { ReducedSecond(d, fs, hs, x0, r); }
    }
    TakenBy(d, text, gs, g, g', k, x0);
  }

  lemma {:induction false} ReduceOnThorough(d: GlrTables, c: Certificate, sup: Supply, text: seq<nat>, p: Point, k: nat,
                                            r: nat, fuel: nat)
    returns (gs: seq<Glr>)
    requires Ready(d, c, text, p.g, k) && p.g.split != NULL && CanReduce(d, text, p.g, k, r)
    requires ReduceOn(d, sup, text, p, k, r, fuel).Ends?
    ensures Segment(d, text, gs, p.g, ReduceOn(d, sup, text, p, k, r, fuel).p.g, k, |p.g.tops|, p.g.tops[k])
    ensures ReducedIn(d, gs, p.g.tops[k], r)
    decreases fuel, 1, 1
  {
    hide ConflictsChecked, Lexed, Cyclic, Safe, SameStack, Process, Checked, InConflict, CanReduce, Segment,
      ReduceDeferred, ReductionSound, Trail;
    var g := p.g;
    ReduceStep(d, c, text, g, k, r);
    var g1 := Reduced(d.lr, g, k, r);
    ReducedExtends(d.lr, g, k, r);
    ReservedAccounted(sup, g1, p.m);
    var v := Reducing(d, sup, p, k, r);
    assert DefersBy(d, g, g1, k, r);
    assert Defers(d, text, g, g1);
    var hs := ProcessThorough(d, c, sup, text, v.p, k, fuel);
    var g' := Process(d, sup, text, v.p, k, fuel).p.g;
    Prepend(d, text, g, g1, hs, g', k, |g.tops|, NULL, k, |g.tops|, g.tops[k]);
    gs := Joined([g, g1], hs);
    assert ReducedAt(d, gs, 0, k, g.tops[k], r);
  }

  lemma {:induction false} FollowThorough(d: GlrTables, c: Certificate, sup: Supply, text: seq<nat>, p: Point, k: nat,
                                          i: nat, fuel: nat)
    returns (gs: seq<Glr>)
    requires Ready(d, c, text, p.g, k) && p.g.tops[k] != NULL && StateOf(d, p.g, k) != d.lr.final
    requires ToFollow(d, StateOf(d, p.g, k), TokenAt(text, p.g.pos), i)
    requires Follow(d, sup, text, p, k, i, fuel).Ends?
    ensures Segment(d, text, gs, p.g, Follow(d, sup, text, p, k, i, fuel).p.g, |p.g.tops|, |p.g.tops|, p.g.tops[k])
    ensures forall r | r in d.Listed(i) :: ReducedIn(d, gs, p.g.tops[k], r)
    decreases fuel, 2, |d.confl| - i
  {
    hide ConflictsChecked, Lexed, Cyclic, Safe, Progress, Settled, SameStack, d.lr.Sized, Forked, Checked,
      InConflict, Called, ToFollow, Segment, Trail, ReducedIn;
    var g, b, x0 := p.g, |p.g.tops|, p.g.tops[k];
    if i >= |d.confl| || d.confl[i] == 0 {
      FollowEnd(d, i);
      gs := [g];
      NoneLooked(d, text, g, x0);
    } else {
      FollowNext(d, StateOf(d, g, k), TokenAt(text, g.pos), i);
      var fs := ForkedThorough(d, c, sup, text, p, k, d.confl[i], fuel);
      var v := Forked(d, sup, text, p, k, d.confl[i], fuel);
      ForkedFacts(d, c, sup, text, p, v.p, k, d.confl[i], fuel);
      SegmentEnds(d, text, fs, g, v.p.g, b, b, x0);
      var hs := FollowThorough(d, c, sup, text, v.p, k, i + 1, fuel);
      JoinFollow(d, text, fs, hs, g, v.p.g, Follow(d, sup, text, p, k, i, fuel).p.g, b, |v.p.g.tops|, x0);
      gs := Joined(fs, hs);
      forall r | r in d.Listed(i)
        ensures ReducedIn(d, gs, x0, r)
      {
        if r == d.confl[i] { ReducedFirst(d, fs, hs, x0, r); } else { ReducedSecond(d, fs, hs, x0, r); }
      }
    }
  }

  lemma {:induction false} ForkedThorough(d: GlrTables, c: Certificate, sup: Supply, text: seq<nat>, p: Point, k: nat,
                                          r: nat, fuel: nat)
    returns (gs: seq<Glr>)
    requires Ready(d, c, text, p.g, k) && p.g.tops[k] != NULL && d.lr.Sized()
    requires StateOf(d, p.g, k) != d.lr.final && StateOf(d, p.g, k) < d.lr.NStates()
    requires Called(d, StateOf(d, p.g, k), TokenAt(text, p.g.pos), r)
    requires Forked(d, sup, text, p, k, r, fuel).Ends?
    ensures Segment(d, text, gs, p.g, Forked(d, sup, text, p, k, r, fuel).p.g, |p.g.tops|, |p.g.tops|, p.g.tops[k])
    ensures ReducedIn(d, gs, p.g.tops[k], r)
    decreases fuel, 1, 2
  {
    hide ConflictsChecked, Lexed, Cyclic, Safe, SameStack, ReduceOn, Reduced, Called, InConflict, CanReduce, Segment,
      Trail, ReducedIn;
    var g, n := p.g, |p.g.tops|;
    StateFacts(d, c, text, g, k);
    ForkStep(d, c, text, g, k, r);
    var g1 := SplitStack(g, k);
    assert Forks(g, g1);
    ExtendsSelf(g.cells);
    var hs := ReduceOnThorough(d, c, sup, text, p.(g := g1), n, r, fuel);
    var g' := ReduceOn(d, sup, text, p.(g := g1), n, r, fuel).p.g;
    Prepend(d, text, g, g1, hs, g', n, n + 1, g.tops[k], n, n, g.tops[k]);
    gs := Joined([g, g1], hs);
    ReducedSecond(d, [g, g1], hs, g.tops[k], r);
  }

  /** The loop over all stacks: whatever comes to be on top of a stack from number `k` on is taken up. */
  lemma {:induction false} ProcessFromThorough(d: GlrTables, c: Certificate, sup: Supply, text: seq<nat>, p: Point,
                                               k: nat, rounds: nat, fuel: nat)
    returns (gs: seq<Glr>)
    requires ConflictsChecked(d, c) && Lexed(d, text) && !Cyclic(c.g) && Safe(d, c, text, p.g)
    requires k <= |p.g.tops| && (p.g.split != NULL || (k == 0 && InConflict(d, text, p.g, 0)))
    requires ProcessFrom(d, sup, text, p, k, rounds, fuel).Ends?
    ensures Segment(d, text, gs, p.g, ProcessFrom(d, sup, text, p, k, rounds, fuel).p.g, k, k, NULL)
    decreases rounds
  {
    hide ConflictsChecked, Lexed, Cyclic, Safe, Progress, Settled, Process, InConflict, Segment;
    if p.g.split == NULL { ConflictLive(d, text, p.g, 0); }
    if k == |p.g.tops| {
      gs := [p.g];
      NoneLooked(d, text, p.g, NULL);
    } else {
      var fs := ProcessThorough(d, c, sup, text, p, k, fuel);
      var v := Process(d, sup, text, p, k, fuel);
      ProcessKeeps(d, c, sup, text, p, k, fuel);
      ProgressPart(d, text, p.g, v.p.g, k);
      var hs := ProcessFromThorough(d, c, sup, text, v.p, k + 1, rounds - 1, fuel);
      JoinNext(d, text, fs, hs, p.g, v.p.g, ProcessFrom(d, sup, text, p, k, rounds, fuel).p.g, k);
      gs := Joined(fs, hs);
    }
  }
}
