/** Nothing is left out: while stacks are processed, every reduction that the tables call for in any state that comes
    to be on top of a stack is carried out, and whatever can shift the token stays. */
module GlrPursuit {
  import opened Grammar
  import opened LrTables
  import opened GlrForest
  import opened GlrMachine
  import opened GlrCyclic
  import opened GlrRun
  import opened GlrStack
  import opened GlrProcess
  import opened GlrWork
  import opened UnitSteps

  /** The operations of `yyprocessOneStack`. */
  ghost predicate Works(d: GlrTables, text: seq<nat>, g: Glr, g': Glr) {
    Forks(g, g') || Dies(d, text, g, g') || Defers(d, text, g, g')
  }

  ghost predicate Trail(d: GlrTables, text: seq<nat>, gs: seq<Glr>) {
    gs != [] && forall i: nat | i + 1 < |gs| :: Works(d, text, gs[i], gs[i + 1])
  }

  /** State `x` is on top of stack `k`, and the next operation reduces that by `r`. */
  ghost predicate ReducedAt(d: GlrTables, gs: seq<Glr>, i: nat, k: nat, x: Ref, r: nat) {
    && i + 1 < |gs| && k < |gs[i].tops| && gs[i].tops[k] == x && gs[i].split != NULL
    && DefersBy(d, gs[i], gs[i + 1], k, r)
  }

  ghost predicate ReducedIn(d: GlrTables, gs: seq<Glr>, x: Ref, r: nat) {
    exists i: nat, k: nat :: ReducedAt(d, gs, i, k, x, r)
  }

  /** State `x` is on top of stack `k` or of one from number `b` on. */
  ghost predicate OnTop(g: Glr, k: nat, b: nat, x: Ref) {
    exists j: nat :: j < |g.tops| && (j == k || j >= b) && g.tops[j] == x
  }

  /** What the tables call for in state `x` is done: all reductions are carried out, and if it shifts the token it is
      on top of a stack in the end. */
  ghost predicate TakenUp(d: GlrTables, text: seq<nat>, gs: seq<Glr>, k: nat, b: nat, x: Ref)
    requires gs != []
  {
    var g := gs[|gs| - 1];
    && IsState(g.cells, x) && d.lr.Sized() && g.cells[x].lr < d.lr.NStates()
    && var s, token := g.cells[x].lr, TokenAt(text, g.pos);
    && (forall r | Called(d, s, token, r) :: ReducedIn(d, gs, x, r))
    && (d.lr.Action(s, token).ShiftTo? ==> OnTop(g, k, b, x))
  }

  /** State `x` shifts the token. */
  predicate Shiftable(d: GlrTables, text: seq<nat>, g: Glr, x: Ref) {
    && IsState(g.cells, x) && d.lr.Sized() && g.cells[x].lr < d.lr.NStates()
    && d.lr.Action(g.cells[x].lr, TokenAt(text, g.pos)).ShiftTo?
  }

  /** State `x` is at some time on top of stack `k` or of one from number `b` on. */
  predicate Visited(gs: seq<Glr>, i: nat, j: nat, k: nat, b: nat, x: Ref) {
    i < |gs| && j < |gs[i].tops| && (j == k || j >= b) && gs[i].tops[j] == x && x != NULL
  }

  /** The other stacks have not changed. */
  ghost predicate Steady(h: Glr, g: Glr, g': Glr, k: nat, b: nat) {
    && b <= |g.tops| && b <= |h.tops| && h.pos == g.pos == g'.pos && GlrWork.Extends(h.cells, g'.cells)
    && forall j | 0 <= j < b && j != k :: h.tops[j] == g.tops[j]
  }

  /** The operations from `g` to `g'` work on stack `k` and those from number `b` on, and take up all that come to be
      on top of these but `x0`. */
  ghost predicate Segment(d: GlrTables, text: seq<nat>, gs: seq<Glr>, g: Glr, g': Glr, k: nat, b: nat, x0: Ref) {
    && Trail(d, text, gs) && gs[0] == g && gs[|gs| - 1] == g'
    && (forall i: nat | i < |gs| :: Steady(gs[i], g, g', k, b))
    && forall i: nat, j: nat, x | Visited(gs, i, j, k, b, x) && x != x0 :: TakenUp(d, text, gs, k, b, x)
  }

  function Joined(gs: seq<Glr>, hs: seq<Glr>): (all: seq<Glr>)
    requires gs != [] && hs != [] && gs[|gs| - 1] == hs[0]
    ensures |all| == |gs| + |hs| - 1
    ensures forall i: nat | i < |gs| :: all[i] == gs[i]
    ensures forall i: nat | i < |hs| :: all[|gs| - 1 + i] == hs[i]
  {
    gs + hs[1..]
  }

  lemma JoinedTrail(d: GlrTables, text: seq<nat>, gs: seq<Glr>, hs: seq<Glr>)
    requires Trail(d, text, gs) && Trail(d, text, hs) && gs[|gs| - 1] == hs[0]
    ensures Trail(d, text, Joined(gs, hs))
  {
    hide Works;
    var all, n := Joined(gs, hs), |gs| - 1;
    forall i: nat | i + 1 < |all|
      ensures Works(d, text, all[i], all[i + 1])
    {
      if i + 1 < |gs| {
        assert Works(d, text, gs[i], gs[i + 1]);
      } else {
        assert all[n + (i - n)] == hs[i - n] && all[n + (i - n + 1)] == hs[i - n + 1];
        assert Works(d, text, hs[i - n], hs[i - n + 1]);
      }
    }
  }

  lemma ReducedFirst(d: GlrTables, gs: seq<Glr>, hs: seq<Glr>, x: Ref, r: nat)
    requires gs != [] && hs != [] && gs[|gs| - 1] == hs[0] && ReducedIn(d, gs, x, r)
    ensures ReducedIn(d, Joined(gs, hs), x, r)
  {
    hide DefersBy;
    var i: nat, k: nat :| ReducedAt(d, gs, i, k, x, r);
    assert ReducedAt(d, Joined(gs, hs), i, k, x, r);
  }

  lemma ReducedSecond(d: GlrTables, gs: seq<Glr>, hs: seq<Glr>, x: Ref, r: nat)
    requires gs != [] && hs != [] && gs[|gs| - 1] == hs[0] && ReducedIn(d, hs, x, r)
    ensures ReducedIn(d, Joined(gs, hs), x, r)
  {
    hide DefersBy;
    var i: nat, k: nat :| ReducedAt(d, hs, i, k, x, r);
    var all, n: nat := Joined(gs, hs), |gs| - 1;
    assert all[n + i] == hs[i] && all[n + (i + 1)] == hs[i + 1];
    assert ReducedAt(d, all, n + i, k, x, r);
  }

  /** What has been taken up in the first part, the stack being there still if it shifts. */
  lemma TakenFirst(d: GlrTables, text: seq<nat>, gs: seq<Glr>, hs: seq<Glr>, k: nat, b: nat, k': nat, b': nat, x: Ref)
    requires gs != [] && hs != [] && gs[|gs| - 1] == hs[0] && TakenUp(d, text, gs, k, b, x)
    requires GlrWork.Extends(hs[0].cells, hs[|hs| - 1].cells) && hs[|hs| - 1].pos == hs[0].pos
    requires Shiftable(d, text, hs[0], x) && OnTop(hs[0], k, b, x) ==> OnTop(hs[|hs| - 1], k', b', x)
    ensures TakenUp(d, text, Joined(gs, hs), k', b', x)
  {
    hide ReducedIn, Called, OnTop, d.lr.Sized, d.lr.Action;
    var g, g' := gs[|gs| - 1], hs[|hs| - 1];
    assert Continues(g.cells, g'.cells, x);
    var s, token := g.cells[x].lr, TokenAt(text, g.pos);
    assert Joined(gs, hs)[|gs| - 1 + (|hs| - 1)] == g';
    forall r | Called(d, s, token, r)
      ensures ReducedIn(d, Joined(gs, hs), x, r)
    {
      ReducedFirst(d, gs, hs, x, r);
    }
  }

  lemma TakenSecond(d: GlrTables, text: seq<nat>, gs: seq<Glr>, hs: seq<Glr>, k: nat, b: nat, k': nat, b': nat,
                    x: Ref)
    requires gs != [] && hs != [] && gs[|gs| - 1] == hs[0] && TakenUp(d, text, hs, k, b, x)
    requires OnTop(hs[|hs| - 1], k, b, x) ==> OnTop(hs[|hs| - 1], k', b', x)
    ensures TakenUp(d, text, Joined(gs, hs), k', b', x)
  {
    hide ReducedIn, Called, OnTop, d.lr.Sized, d.lr.Action;
    var g' := hs[|hs| - 1];
    var s, token := g'.cells[x].lr, TokenAt(text, g'.pos);
    assert Joined(gs, hs)[|gs| - 1 + (|hs| - 1)] == g';
    forall r | Called(d, s, token, r)
      ensures ReducedIn(d, Joined(gs, hs), x, r)
    {
      ReducedSecond(d, gs, hs, x, r);
    }
  }

  lemma OnTopWider(g: Glr, k: nat, b: nat, k': nat, b': nat, x: Ref)
    requires OnTop(g, k, b, x) && b' <= b && (k == k' || k >= b')
    ensures OnTop(g, k', b', x)
  {
  }

  /** A stack that is left alone. */
  lemma OnTopSteady(d: GlrTables, text: seq<nat>, hs: seq<Glr>, g: Glr, g': Glr, k: nat, b: nat, x0: Ref, from: nat,
                    x: Ref)
    requires Segment(d, text, hs, g, g', k, b, x0) && b == |g.tops| && (k < from || k == b)
    requires OnTop(g, from, from, x)
    ensures OnTop(g', from, from, x)
  {
    hide Works, TakenUp;
    assert Steady(hs[|hs| - 1], g, g', k, b);
    var j: nat :| j < |g.tops| && j >= from && g.tops[j] == x;
    assert g'.tops[j] == g.tops[j];
  }

  lemma SegmentEnds(d: GlrTables, text: seq<nat>, gs: seq<Glr>, g: Glr, g': Glr, k: nat, b: nat, x0: Ref)
    requires Segment(d, text, gs, g, g', k, b, x0)
    ensures gs != [] && gs[0] == g && gs[|gs| - 1] == g' && Trail(d, text, gs)
    ensures g'.pos == g.pos && GlrWork.Extends(g.cells, g'.cells) && b <= |g.tops| && b <= |g'.tops|
    ensures forall j | 0 <= j < b && j != k :: g'.tops[j] == g.tops[j]
  {
    hide Works, TakenUp;
    assert Steady(gs[0], g, g', k, b) && Steady(gs[|gs| - 1], g, g', k, b);
  }

  /** How two parts that follow one another behave to all stacks but the ones that they work on. */
  lemma JoinedSteady(d: GlrTables, text: seq<nat>, gs: seq<Glr>, hs: seq<Glr>, g: Glr, g1: Glr, g': Glr, k1: nat,
                     b1: nat, x1: Ref, k2: nat, b2: nat, x2: Ref, k: nat, b: nat)
    requires Segment(d, text, gs, g, g1, k1, b1, x1) && Segment(d, text, hs, g1, g', k2, b2, x2)
    requires b <= b1 && b <= b2 && (k1 == k || k1 >= b) && (k2 == k || k2 >= b)
    ensures gs != [] && hs != [] && gs[|gs| - 1] == hs[0]
    ensures forall i: nat | i < |Joined(gs, hs)| :: Steady(Joined(gs, hs)[i], g, g', k, b)
  {
    hide Works, TakenUp, Trail, GlrWork.Extends;
    SegmentEnds(d, text, gs, g, g1, k1, b1, x1);
    SegmentEnds(d, text, hs, g1, g', k2, b2, x2);
    var all := Joined(gs, hs);
    forall i: nat | i < |all|
      ensures Steady(all[i], g, g', k, b)
    {
      if i < |gs| {
        assert Steady(gs[i], g, g1, k1, b1);
        ExtendsOn(gs[i].cells, g1.cells, g'.cells);
      } else {
        assert all[|gs| - 1 + (i - (|gs| - 1))] == hs[i - (|gs| - 1)];
        assert Steady(hs[i - (|gs| - 1)], g1, g', k2, b2);
      }
    }
  }

  /** Stack `k` has its conflicts followed up in the first part, during which `x0` stays on top of it; in the second
      part more of them are, or stack `k` itself goes on. */
  lemma JoinFollow(d: GlrTables, text: seq<nat>, gs: seq<Glr>, hs: seq<Glr>, g: Glr, g1: Glr, g': Glr, b: nat, k2: nat,
                   x0: Ref)
    requires Segment(d, text, gs, g, g1, b, b, x0) && Segment(d, text, hs, g1, g', k2, |g1.tops|, x0)
    requires k2 == |g1.tops| || (k2 < b && g.tops[k2] == x0)
    ensures gs != [] && hs != [] && gs[|gs| - 1] == hs[0]
    ensures Segment(d, text, Joined(gs, hs), g, g', if k2 < b then k2 else b, b, x0)
  {
    hide Works, TakenUp, GlrWork.Extends, OnTop, Steady;
    var k := if k2 < b then k2 else b;
    SegmentEnds(d, text, gs, g, g1, b, b, x0);
    SegmentEnds(d, text, hs, g1, g', k2, |g1.tops|, x0);
    JoinedSteady(d, text, gs, hs, g, g1, g', b, b, x0, k2, |g1.tops|, x0, k, b);
    JoinedTrail(d, text, gs, hs);
    var all := Joined(gs, hs);
    assert all[|gs| - 1 + (|hs| - 1)] == g';
    forall i: nat, j: nat, x | Visited(all, i, j, k, b, x) && x != x0
      ensures TakenUp(d, text, all, k, b, x)
    {
      FollowVisit(d, text, gs, hs, g, g1, g', b, k2, x0, i, j, x);
    }
  }

  lemma FollowVisit(d: GlrTables, text: seq<nat>, gs: seq<Glr>, hs: seq<Glr>, g: Glr, g1: Glr, g': Glr, b: nat, k2: nat,
                    x0: Ref, i: nat, j: nat, x: Ref)
    requires Segment(d, text, gs, g, g1, b, b, x0) && Segment(d, text, hs, g1, g', k2, |g1.tops|, x0)
    requires k2 == |g1.tops| || (k2 < b && g.tops[k2] == x0)
    requires gs != [] && hs != [] && gs[|gs| - 1] == hs[0] && x != x0
    requires Visited(Joined(gs, hs), i, j, if k2 < b then k2 else b, b, x)
    ensures TakenUp(d, text, Joined(gs, hs), if k2 < b then k2 else b, b, x)
  {
    hide Works, TakenUp, GlrWork.Extends, OnTop, Trail;
    var k, all, n := if k2 < b then k2 else b, Joined(gs, hs), |gs| - 1;
    SegmentEnds(d, text, gs, g, g1, b, b, x0);
    SegmentEnds(d, text, hs, g1, g', k2, |g1.tops|, x0);
    if i >= |gs| { assert all[n + (i - n)] == hs[i - n]; }
    if i < |gs| || (b <= j < |g1.tops| && j != k2) {
      var i1: nat := if i < |gs| then i else n;
      if i < |gs| {
        assert Steady(gs[i], g, g1, b, b);
      } else {
        assert Steady(hs[i - n], g1, g', k2, |g1.tops|);
      }
      assert Visited(gs, i1, j, b, b, x);
      if OnTop(g1, b, b, x) {
        OnTopSteady(d, text, hs, g1, g', k2, |g1.tops|, x0, b, x);
        OnTopWider(g', b, b, k, b, x);
      }
      TakenFirst(d, text, gs, hs, b, b, k, b, x);
    } else {
      assert Visited(hs, i - n, j, k2, |g1.tops|, x);
      if OnTop(g', k2, |g1.tops|, x) { OnTopWider(g', k2, |g1.tops|, k, b, x); }
      TakenSecond(d, text, gs, hs, k2, |g1.tops|, k, b, x);
    }
  }

  /** All stacks from number `k + 1` on are worked on after stack `k`. */
  lemma JoinNext(d: GlrTables, text: seq<nat>, gs: seq<Glr>, hs: seq<Glr>, g: Glr, g1: Glr, g': Glr, k: nat)
    requires Segment(d, text, gs, g, g1, k, |g.tops|, NULL) && Segment(d, text, hs, g1, g', k + 1, k + 1, NULL)
    requires k < |g.tops|
    ensures gs != [] && hs != [] && gs[|gs| - 1] == hs[0]
    ensures Segment(d, text, Joined(gs, hs), g, g', k, k, NULL)
  {
    hide Works, TakenUp, GlrWork.Extends, OnTop, Steady;
    SegmentEnds(d, text, gs, g, g1, k, |g.tops|, NULL);
    SegmentEnds(d, text, hs, g1, g', k + 1, k + 1, NULL);
    JoinedSteady(d, text, gs, hs, g, g1, g', k, |g.tops|, NULL, k + 1, k + 1, NULL, k, k);
    JoinedTrail(d, text, gs, hs);
    var all := Joined(gs, hs);
    assert all[|gs| - 1 + (|hs| - 1)] == g';
    forall i: nat, j: nat, x | Visited(all, i, j, k, k, x) && x != NULL
      ensures TakenUp(d, text, all, k, k, x)
    {
      NextVisit(d, text, gs, hs, g, g1, g', k, i, j, x);
    }
  }

  lemma NextVisit(d: GlrTables, text: seq<nat>, gs: seq<Glr>, hs: seq<Glr>, g: Glr, g1: Glr, g': Glr, k: nat, i: nat,
                  j: nat, x: Ref)
    requires Segment(d, text, gs, g, g1, k, |g.tops|, NULL) && Segment(d, text, hs, g1, g', k + 1, k + 1, NULL)
    requires k < |g.tops| && gs != [] && hs != [] && gs[|gs| - 1] == hs[0] && Visited(Joined(gs, hs), i, j, k, k, x)
    ensures TakenUp(d, text, Joined(gs, hs), k, k, x)
  {
    hide Works, TakenUp, GlrWork.Extends, Trail;
    var all, n, b := Joined(gs, hs), |gs| - 1, |g.tops|;
    SegmentEnds(d, text, gs, g, g1, k, b, NULL);
    SegmentEnds(d, text, hs, g1, g', k + 1, k + 1, NULL);
    if i >= |gs| {
      assert all[n + (i - n)] == hs[i - n];
      assert Steady(hs[i - n], g1, g', k + 1, k + 1);
    } else {
      assert Steady(gs[i], g, g1, k, b);
    }
    var i2: nat := if i < |gs| then 0 else i - n;
    if j > k && (i >= |gs| || j < b) {
      assert Visited(hs, i2, j, k + 1, k + 1, x);
      if OnTop(g', k + 1, k + 1, x) { OnTopWider(g', k + 1, k + 1, k, k, x); }
      TakenSecond(d, text, gs, hs, k + 1, k + 1, k, k, x);
    } else {
      var i1: nat := if i < |gs| then i else n;
      assert Visited(gs, i1, j, k, b, x);
      if Shiftable(d, text, g1, x) && OnTop(g1, k, b, x) { StaysOn(d, text, hs, g1, g', k, b, x); }
      TakenFirst(d, text, gs, hs, k, b, k, k, x);
    }
  }

  /** What waits on stack `k`, or on one that is looked at again, is still there in the end. */
  lemma StaysOn(d: GlrTables, text: seq<nat>, hs: seq<Glr>, g: Glr, g': Glr, k: nat, b: nat, x: Ref)
    requires Segment(d, text, hs, g, g', k + 1, k + 1, NULL) && OnTop(g, k, b, x) && k < b && x != NULL
    requires Shiftable(d, text, g, x)
    ensures OnTop(g', k, k, x)
  {
    hide Works, ReducedIn, Called, d.lr.Sized, d.lr.Action;
    SegmentEnds(d, text, hs, g, g', k + 1, k + 1, NULL);
    var j: nat :| j < |g.tops| && (j == k || j >= b) && g.tops[j] == x;
    if j == k {
      assert g'.tops[k] == x;
    } else {
      assert Visited(hs, 0, j, k + 1, k + 1, x);
      assert TakenUp(d, text, hs, k + 1, k + 1, x);
      assert Continues(g.cells, g'.cells, x);
      OnTopWider(g', k + 1, k + 1, k, k, x);
    }
  }

  /** One operation comes first. */
  lemma Prepend(d: GlrTables, text: seq<nat>, g: Glr, g1: Glr, hs: seq<Glr>, g': Glr, k2: nat, b2: nat, x2: Ref, k: nat,
                b: nat, x0: Ref)
    requires Works(d, text, g, g1) && Segment(d, text, hs, g1, g', k2, b2, x2)
    requires GlrWork.Extends(g.cells, g1.cells) && g1.pos == g.pos && b <= |g.tops| <= |g1.tops|
    requires (forall j | 0 <= j < b && j != k :: g1.tops[j] == g.tops[j]) 
    requires forall j: nat | j < |g.tops| && (j == k || j >= b) :: g.tops[j] == NULL || g.tops[j] == x0
    requires (k2 == k && b2 == b) || (k2 == k == b && b2 == b + 1)
    requires x2 == NULL || x2 == x0
    ensures hs != [] && hs[0] == g1 && Segment(d, text, Joined([g, g1], hs), g, g', k, b, x0)
  {
    hide Works, TakenUp, GlrWork.Extends, OnTop, Trail;
    SegmentEnds(d, text, hs, g1, g', k2, b2, x2);
    var two := [g, g1];
    var all := Joined(two, hs);
    assert Trail(d, text, two) by { OneWork(d, text, g, g1); }
    JoinedTrail(d, text, two, hs);
    assert all[1 + (|hs| - 1)] == g';
    forall i: nat | i < |all|
      ensures Steady(all[i], g, g', k, b)
    {
      if i == 0 {
        ExtendsOn(g.cells, g1.cells, g'.cells);
      } else {
        assert all[1 + (i - 1)] == hs[i - 1] && Steady(hs[i - 1], g1, g', k2, b2);
      }
    }
    forall i: nat, j: nat, x | Visited(all, i, j, k, b, x) && x != x0
      ensures TakenUp(d, text, all, k, b, x)
    {
      assert i > 0;
      assert all[1 + (i - 1)] == hs[i - 1];
      assert Visited(hs, i - 1, j, k2, b2, x);
      if OnTop(g', k2, b2, x) { OnTopWider(g', k2, b2, k, b, x); }
      TakenSecond(d, text, two, hs, k2, b2, k, b, x);
    }
  }

  lemma OneWork(d: GlrTables, text: seq<nat>, g: Glr, g1: Glr)
    requires Works(d, text, g, g1)
    ensures Trail(d, text, [g, g1])
  {
    hide Works;
  }

  /** A stack that waits, or is given up. */
  lemma OnlyTop(d: GlrTables, text: seq<nat>, g: Glr, k: nat)
    requires k < |g.tops|
    ensures Segment(d, text, [g], g, g, k, |g.tops|, g.tops[k])
  {
    hide Works, TakenUp;
    ExtendsSelf(g.cells);
  }

  lemma ExtendsSelf(cells: Cells)
    ensures GlrWork.Extends(cells, cells)
  {
  }

  lemma GivenUp(d: GlrTables, text: seq<nat>, g: Glr, k: nat)
    requires CanDie(d, text, g, k) && g.split != NULL
    ensures Segment(d, text, [g, Kill(g, k)], g, Kill(g, k), k, |g.tops|, g.tops[k])
  {
    hide TakenUp, CanDie;
    LivesToDie(d, text, g, k);
    ExtendsSelf(g.cells);
    assert Dies(d, text, g, Kill(g, k));
  }

  lemma LivesToDie(d: GlrTables, text: seq<nat>, g: Glr, k: nat)
    requires CanDie(d, text, g, k)
    ensures k < |g.tops|
  {
  }

  /** When the state on top of the stack has been taken up, too, nothing is left. */
  lemma NothingLeft(d: GlrTables, text: seq<nat>, gs: seq<Glr>, g: Glr, g': Glr, k: nat, b: nat, x0: Ref)
    requires Segment(d, text, gs, g, g', k, b, x0) && TakenUp(d, text, gs, k, b, x0)
    ensures Segment(d, text, gs, g, g', k, b, NULL)
  {
    hide TakenUp, Works;
  }
}
