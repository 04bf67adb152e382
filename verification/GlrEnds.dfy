/** Without cycles and empty rules every stack is processed in a bounded number of steps, and splits off a bounded
    number of stacks. */
module GlrEnds {
  import opened Grammar
  import opened LrTables
  import opened GlrForest
  import opened GlrMachine
  import opened GlrCyclic
  import opened GlrRun
  import opened GlrStack
  import opened GlrProcess
  import opened GlrWork
  import opened UnitSteps

  /** How many stacks are split off one of measure `w`, if a state has at most `n` conflicting rules. */
  function Offspring(n: nat, w: nat): nat {
    if w == 0 then 0 else n * (1 + Offspring(n, w - 1)) + Offspring(n, w - 1)
  }

  lemma {:induction false} OffspringMore(n: nat, w: nat, w': nat)
    requires w <= w'
    ensures Offspring(n, w) <= Offspring(n, w')
    decreases w'
  {
    if w < w' {
      OffspringMore(n, w, w' - 1);
      assert n * (1 + Offspring(n, w' - 1)) >= 0;
    }
  }

  /** What has become of the stacks: at most `limit` have been added, of lower measure than `w`; all but number `k` are
      as they were. */
  ghost predicate Grown(t: Tables, c: Certificate, g: Glr, g': Glr, k: nat, w: nat, limit: nat) {
    && k < |g.tops| <= |g'.tops| <= |g.tops| + limit
    && (forall j: nat | j < |g.tops| && j != k :: SameWork(t, c, g, g', j))
    && (forall j: nat | |g.tops| <= j < |g'.tops| :: WorkAt(t, c, g', j) < w)
    && WorkAt(t, c, g', k) <= w
  }

  lemma SameSelf(t: Tables, c: Certificate, g: Glr, k: nat)
    requires k < |g.tops|
    ensures Grown(t, c, g, g, k, WorkAt(t, c, g, k), 0)
  {
  }

  lemma GrownOn(t: Tables, c: Certificate, g: Glr, g': Glr, g'': Glr, k: nat, w: nat, a: nat, v: nat, b: nat)
    requires Grown(t, c, g, g', k, w, a) && Grown(t, c, g', g'', k, v, b) && v <= w
    ensures Grown(t, c, g, g'', k, w, a + b)
  {
    hide WorkAt;
    forall j: nat | j < |g.tops| && j != k
      ensures SameWork(t, c, g, g'', j)
    {
      assert SameWork(t, c, g, g', j) && SameWork(t, c, g', g'', j);
    }
    forall j: nat | |g.tops| <= j < |g''.tops|
      ensures WorkAt(t, c, g'', j) < w
    {
      if j < |g'.tops| { assert SameWork(t, c, g', g'', j); }
    }
  }

  lemma KillLowers(t: Tables, c: Certificate, g: Glr, k: nat)
    requires k < |g.tops|
    ensures Grown(t, c, g, Kill(g, k), k, WorkAt(t, c, g, k), 0)
  {
    hide Work;
  }

  /** The result of processing stack `k` of `g`: it comes within the bound. */
  ghost predicate Bounded(d: GlrTables, c: Certificate, g: Glr, r: Result, k: nat, w: nat, limit: nat) {
    r != Unfinished && (r.Ends? ==> Grown(d.lr, c, g, r.p.g, k, w, limit))
  }

  /** What comes of `g'` is what comes of `g`, from which it has grown. */
  lemma BoundedOn(d: GlrTables, c: Certificate, g: Glr, g': Glr, r: Result, k: nat, w: nat, a: nat, v: nat, b: nat,
                  limit: nat)
    requires Grown(d.lr, c, g, g', k, w, a) && Bounded(d, c, g', r, k, v, b) && v <= w && a + b <= limit
    ensures Bounded(d, c, g, r, k, w, limit)
  {
    hide SameWork, WorkAt;
    if r.Ends? { GrownOn(d.lr, c, g, g', r.p.g, k, w, a, v, b); }
  }

  lemma BoundedLoose(d: GlrTables, c: Certificate, g: Glr, r: Result, k: nat, w: nat, limit: nat, w': nat, limit': nat)
    requires Bounded(d, c, g, r, k, w, limit) && w <= w' && limit <= limit'
    ensures Bounded(d, c, g, r, k, w', limit')
  {
    hide SameWork, WorkAt;
  }

  lemma SplitWork(t: Tables, c: Certificate, g: Glr, k: nat)
    requires k < |g.tops|
    ensures var g' := SplitStack(g, k);
      (forall j: nat | j < |g.tops| :: SameWork(t, c, g, g', j)) && WorkAt(t, c, g', |g.tops|) == WorkAt(t, c, g, k)
  {
    hide Work;
  }

  lemma OffspringStep(n: nat, w: nat)
    requires w > 0
    ensures Offspring(n, w) == n * (1 + Offspring(n, w - 1)) + Offspring(n, w - 1) && n * (1 + Offspring(n, w - 1)) >= 0
  {
  }

  lemma {:induction false} ProcessEnds(d: GlrTables, c: Certificate, sup: Supply, text: seq<nat>, p: Point, k: nat,
                                       fuel: nat)
    requires Ready(d, c, text, p.g, k) && NoEmptyRules(d.lr) && WorkAt(d.lr, c, p.g, k) < fuel
    ensures var w := WorkAt(d.lr, c, p.g, k);
      Bounded(d, c, p.g, Process(d, sup, text, p, k, fuel), k, w, Offspring(|d.confl|, w))
    decreases fuel, 1, 0
  {
    hide ConflictsChecked, Lexed, Cyclic, Safe, Kill, d.Listed, d.lr.Sized, Follow, ReduceOn, Checked, InConflict,
      Called, Process, WorkAt, Grown, Offspring, NoEmptyRules, SameWork;
    var g, w, t := p.g, WorkAt(d.lr, c, p.g, k), d.lr;
    ProcessStart(d, sup, text, p, k, fuel);
    SameSelf(t, c, g, k);
    if g.tops[k] == NULL {
      BoundedLoose(d, c, g, Ends(p), k, w, 0, w, Offspring(|d.confl|, w));
    } else {
      StateFacts(d, c, text, g, k);
      LiveWork(t, c, g, k);
      OffspringStep(|d.confl|, w);
      ProcessStep(d, sup, text, p, k, fuel);
      KillLowers(t, c, g, k);
      BoundedLoose(d, c, g, Ends(p.(g := Kill(g, k))), k, w, 0, w, Offspring(|d.confl|, w));
      var s, token := StateOf(d, g, k), TokenAt(text, g.pos);
      if s == t.final {
      } else if t.IsDefaulted(s) {
        match t.Default(s)
        case ReduceBy(r) =>
          DefaultCalled(d, s, token, r);
          assert CanReduce(d, text, g, k, r);
          ReduceOnEnds(d, c, sup, text, p, k, r, fuel - 1);
          BoundedLoose(d, c, g, ReduceOn(d, sup, text, p, k, r, fuel - 1), k, w - 1, Offspring(|d.confl|, w - 1), w,
                       Offspring(|d.confl|, w));
        case _ =>
      } else {
        FollowedEnds(d, c, sup, text, p, k, fuel - 1);
      }
    }
  }

  /** The rest of it for a state that looks at the token. */
  lemma {:induction false} FollowedEnds(d: GlrTables, c: Certificate, sup: Supply, text: seq<nat>, p: Point, k: nat,
                                        fuel: nat)
    requires Ready(d, c, text, p.g, k) && NoEmptyRules(d.lr) && 0 < WorkAt(d.lr, c, p.g, k) <= fuel
    requires p.g.tops[k] != NULL && StateOf(d, p.g, k) != d.lr.final && d.lr.Sized()
    requires StateOf(d, p.g, k) < d.lr.NStates()
    requires !d.lr.IsDefaulted(StateOf(d, p.g, k)) && IsLive(p.g, k)
    ensures var w := WorkAt(d.lr, c, p.g, k);
      Bounded(d, c, p.g, Process(d, sup, text, p, k, fuel + 1), k, w, Offspring(|d.confl|, w))
    decreases fuel, 3
  {
    hide ConflictsChecked, Lexed, Cyclic, Safe, Kill, d.Listed, d.lr.Sized, Follow, ReduceOn, Checked, InConflict,
      Called, Process, WorkAt, Grown, Offspring, NoEmptyRules, SameWork, Share;
    var g, w, t := p.g, WorkAt(d.lr, c, p.g, k), d.lr;
    var s, token, n := StateOf(d, g, k), TokenAt(text, g.pos), |d.confl|;
    OffspringStep(n, w);
    StateFacts(d, c, text, g, k);
    ProcessStep(d, sup, text, p, k, fuel + 1);
    FollowStart(d, s, token);
    var i := d.ConflictAt(s, token);
    FollowEnds(d, c, sup, text, p, k, i, fuel);
    var v := Follow(d, sup, text, p, k, i, fuel);
    var limit := n * (1 + Offspring(n, w - 1));
    ShareStep(d, i, 1 + Offspring(n, w - 1));
    BoundedLoose(d, c, g, v, k, w, Share(d, i, 1 + Offspring(n, w - 1)), w, limit);
    BoundedLoose(d, c, g, v, k, w, limit, w, Offspring(n, w));
    if v.Ends? {
      Followed(d, c, sup, text, p, v.p, k, i, fuel);
      match t.Action(s, token)
      case ShiftTo(_) =>
      case Fail =>
        KillLowers(t, c, v.p.g, k);
        GrownOn(t, c, g, v.p.g, Kill(v.p.g, k), k, w, limit, w, 0);
        BoundedLoose(d, c, g, Ends(v.p.(g := Kill(v.p.g, k))), k, w, limit, w, Offspring(n, w));
      case ReduceBy(r) =>
        ActionCalled(d, s, token, r);
        assert CanReduce(d, text, v.p.g, k, r);
        ReduceOnEnds(d, c, sup, text, v.p, k, r, fuel);
        BoundedOn(d, c, g, v.p.g, ReduceOn(d, sup, text, v.p, k, r, fuel), k, w, limit, w - 1, Offspring(n, w - 1),
                  Offspring(n, w));
    }
  }

  /** `x` for every conflicting rule that may be left from number `i` on. */
  function Share(d: GlrTables, i: nat, x: nat): nat {
    if i < |d.confl| then (|d.confl| - i) * x else 0
  }

  lemma ShareStep(d: GlrTables, i: nat, x: nat)
    ensures Share(d, i, x) <= |d.confl| * x
    ensures i < |d.confl| ==> x + Share(d, i + 1, x) == Share(d, i, x)
  {
    if i < |d.confl| {
      assert (|d.confl| - i) * x + i * x == |d.confl| * x;
      assert (|d.confl| - i) * x == x + (|d.confl| - i - 1) * x;
    }
  }

  lemma {:induction false} ReduceOnEnds(d: GlrTables, c: Certificate, sup: Supply, text: seq<nat>, p: Point, k: nat,
                                        r: nat, fuel: nat)
    requires Ready(d, c, text, p.g, k) && p.g.split != NULL && CanReduce(d, text, p.g, k, r) && NoEmptyRules(d.lr)
    requires 0 < WorkAt(d.lr, c, p.g, k) <= fuel
    ensures var w := WorkAt(d.lr, c, p.g, k);
      Bounded(d, c, p.g, ReduceOn(d, sup, text, p, k, r, fuel), k, w - 1, Offspring(|d.confl|, w - 1))
    decreases fuel, 1, 1
  {
    hide ConflictsChecked, Lexed, Cyclic, Safe, SameStack, Reduced, Process, Checked, InConflict, CanReduce, WorkAt,
      Offspring, NoEmptyRules, SameWork, Grown;
    var g, w, t := p.g, WorkAt(d.lr, c, p.g, k), d.lr;
    ReduceStep(d, c, text, g, k, r);
    ReduceLowers(d, c, text, g, k, r);
    ReservedAccounted(sup, Reduced(t, g, k, r), p.m);
    var v := Reducing(d, sup, p, k, r);
    if v.Ends? {
      LoweredGrown(t, c, g, v.p.g, k, w);
      var w' := WorkAt(t, c, v.p.g, k);
      ProcessEnds(d, c, sup, text, v.p, k, fuel);
      OffspringMore(|d.confl|, w', w - 1);
      BoundedOn(d, c, g, v.p.g, Process(d, sup, text, v.p, k, fuel), k, w - 1, 0, w', Offspring(|d.confl|, w'),
                Offspring(|d.confl|, w - 1));
    }
  }

  lemma LoweredGrown(t: Tables, c: Certificate, g: Glr, g': Glr, k: nat, w: nat)
    requires k < |g.tops| == |g'.tops| && WorkAt(t, c, g', k) < w
    requires forall j: nat | j < |g.tops| && j != k :: SameWork(t, c, g, g', j)
    ensures Grown(t, c, g, g', k, w - 1, 0)
  {
    hide SameWork, WorkAt;
  }

  lemma {:induction false} FollowEnds(d: GlrTables, c: Certificate, sup: Supply, text: seq<nat>, p: Point, k: nat,
                                      i: nat, fuel: nat)
    requires Ready(d, c, text, p.g, k) && p.g.tops[k] != NULL && StateOf(d, p.g, k) != d.lr.final && NoEmptyRules(d.lr)
    requires ToFollow(d, StateOf(d, p.g, k), TokenAt(text, p.g.pos), i) && 0 < WorkAt(d.lr, c, p.g, k) <= fuel
    ensures var w := WorkAt(d.lr, c, p.g, k); var v := Follow(d, sup, text, p, k, i, fuel);
      && Bounded(d, c, p.g, v, k, w, Share(d, i, 1 + Offspring(|d.confl|, w - 1)))
      && (v.Ends? ==> WorkAt(d.lr, c, v.p.g, k) == w)
    decreases fuel, 2, |d.confl| - i
  {
    hide ConflictsChecked, Lexed, Cyclic, Safe, Progress, Settled, SameStack, d.Listed, d.lr.Sized, Forked, Checked,
      InConflict, Called, ToFollow, WorkAt, Offspring, NoEmptyRules, SameWork, Grown, Share;
    var g, w, t := p.g, WorkAt(d.lr, c, p.g, k), d.lr;
    SameSelf(t, c, g, k);
    var x := 1 + Offspring(|d.confl|, w - 1);
    if i < |d.confl| && d.confl[i] != 0 {
      FollowNext(d, StateOf(d, g, k), TokenAt(text, g.pos), i);
      ForkedEnds(d, c, sup, text, p, k, d.confl[i], fuel);
      var v := Forked(d, sup, text, p, k, d.confl[i], fuel);
      if v.Ends? {
        ForkedFacts(d, c, sup, text, p, v.p, k, d.confl[i], fuel);
        FollowEnds(d, c, sup, text, v.p, k, i + 1, fuel);
        ShareStep(d, i, x);
        BoundedOn(d, c, g, v.p.g, Follow(d, sup, text, v.p, k, i + 1, fuel), k, w, x, w, Share(d, i + 1, x),
                  Share(d, i, x));
      }
    } else {
      BoundedLoose(d, c, g, Ends(p), k, w, 0, w, Share(d, i, x));
    }
  }

  lemma {:induction false} ForkedEnds(d: GlrTables, c: Certificate, sup: Supply, text: seq<nat>, p: Point, k: nat,
                                      r: nat, fuel: nat)
    requires Ready(d, c, text, p.g, k) && p.g.tops[k] != NULL && d.lr.Sized() && NoEmptyRules(d.lr)
    requires StateOf(d, p.g, k) != d.lr.final && StateOf(d, p.g, k) < d.lr.NStates()
    requires Called(d, StateOf(d, p.g, k), TokenAt(text, p.g.pos), r) && 0 < WorkAt(d.lr, c, p.g, k) <= fuel
    ensures var w := WorkAt(d.lr, c, p.g, k); var v := Forked(d, sup, text, p, k, r, fuel);
      && Bounded(d, c, p.g, v, k, w, 1 + Offspring(|d.confl|, w - 1))
      && (v.Ends? ==> WorkAt(d.lr, c, v.p.g, k) == w)
    decreases fuel, 1, 2
  {
    hide ConflictsChecked, Lexed, Cyclic, Safe, SameStack, ReduceOn, Reduced, Called, InConflict, SplitStack, CanReduce,
      WorkAt, Offspring, NoEmptyRules, SameWork, Grown;
    var g, n, t := p.g, |p.g.tops|, d.lr;
    ForkStep(d, c, text, g, k, r);
    SplitWork(t, c, g, k);
    var g1, w := SplitStack(g, k), WorkAt(t, c, g, k);
    ReduceOnEnds(d, c, sup, text, p.(g := g1), n, r, fuel);
    var v := ReduceOn(d, sup, text, p.(g := g1), n, r, fuel);
    if v.Ends? { ForkedGrown(t, c, g, g1, v.p.g, k, w, Offspring(|d.confl|, w - 1)); }
  }

  /** What has grown from the configuration with the stack split off has grown from the one without. */
  lemma ForkedGrown(t: Tables, c: Certificate, g: Glr, g1: Glr, g': Glr, k: nat, w: nat, limit: nat)
    requires k < |g.tops| && |g1.tops| == |g.tops| + 1 && w > 0 && w == WorkAt(t, c, g, k)
    requires forall j: nat | j < |g.tops| :: SameWork(t, c, g, g1, j)
    requires Grown(t, c, g1, g', |g.tops|, w - 1, limit)
    ensures Grown(t, c, g, g', k, w, 1 + limit) && WorkAt(t, c, g', k) == w
  {
    hide WorkAt;
    forall j: nat | j < |g.tops|
      ensures SameWork(t, c, g, g', j)
    {
      assert SameWork(t, c, g, g1, j) && SameWork(t, c, g1, g', j);
    }
    assert SameWork(t, c, g, g', k);
  }

  /** A bound on how many stacks are processed for one of measure `w`, those split off it included. */
  function Visits(n: nat, w: nat): nat {
    if w == 0 then 1 else 1 + Visits(n, w - 1) + Offspring(n, w) * Visits(n, w - 1)
  }

  lemma {:induction false} VisitsMore(n: nat, w: nat, w': nat)
    requires w <= w'
    ensures Visits(n, w) <= Visits(n, w')
    decreases w'
  {
    hide Offspring;
    if w < w' {
      VisitsMore(n, w, w' - 1);
      assert Offspring(n, w') * Visits(n, w' - 1) >= 0;
    }
  }

  /** The same for all stacks from number `k` on. */
  ghost function Ahead(d: GlrTables, c: Certificate, g: Glr, k: nat): nat
    decreases |g.tops| - k
  {
    if k >= |g.tops| then 0 else Visits(|d.confl|, WorkAt(d.lr, c, g, k)) + Ahead(d, c, g, k + 1)
  }

  lemma {:induction false} AheadNew(d: GlrTables, c: Certificate, g: Glr, k: nat, w: nat)
    requires k <= |g.tops| && forall j: nat | k <= j < |g.tops| :: WorkAt(d.lr, c, g, j) < w
    ensures w > 0 ==> Ahead(d, c, g, k) <= (|g.tops| - k) * Visits(|d.confl|, w - 1)
    ensures w == 0 ==> k == |g.tops|
    decreases |g.tops| - k
  {
    hide WorkAt, Visits;
    if k < |g.tops| {
      AheadNew(d, c, g, k + 1, w);
      VisitsMore(|d.confl|, WorkAt(d.lr, c, g, k), w - 1);
      var v := Visits(|d.confl|, w - 1);
      assert (|g.tops| - k) * v == v + (|g.tops| - k - 1) * v;
    }
  }

  /** The stacks that were there before count as before. */
  lemma {:induction false} AheadOld(d: GlrTables, c: Certificate, g: Glr, g': Glr, k: nat, w: nat, limit: nat, j: nat)
    requires Grown(d.lr, c, g, g', k, w, limit) && k < j <= |g.tops|
    ensures Ahead(d, c, g', j) == Ahead(d, c, g, j) + Ahead(d, c, g', |g.tops|)
    decreases |g.tops| - j
  {
    hide WorkAt, Visits;
    if j < |g.tops| {
      assert SameWork(d.lr, c, g, g', j);
      AheadOld(d, c, g, g', k, w, limit, j + 1);
    }
  }

  /** Processing a stack leaves less ahead, whatever it splits off. */
  lemma AheadDrops(d: GlrTables, c: Certificate, g: Glr, g': Glr, k: nat)
    requires var w := WorkAt(d.lr, c, g, k); Grown(d.lr, c, g, g', k, w, Offspring(|d.confl|, w))
    ensures Ahead(d, c, g', k + 1) < Ahead(d, c, g, k)
  {
    hide WorkAt, Offspring, SameWork;
    var n, w := |d.confl|, WorkAt(d.lr, c, g, k);
    AheadOld(d, c, g, g', k, w, Offspring(n, w), k + 1);
    AheadNew(d, c, g', |g.tops|, w);
    if w > 0 { LessTimes(|g'.tops| - |g.tops|, Offspring(n, w), Visits(n, w - 1)); }
  }

  lemma LessTimes(a: nat, b: nat, x: nat)
    requires a <= b
    ensures a * x <= b * x
  {
    assert (b - a) * x >= 0;
  }

  /** No stack from number `k` on has a measure of `fuel` or more. */
  ghost predicate AllBelow(t: Tables, c: Certificate, g: Glr, k: nat, fuel: nat) {
    forall j: nat | k <= j < |g.tops| :: WorkAt(t, c, g, j) < fuel
  }

  lemma BelowOn(t: Tables, c: Certificate, g: Glr, g': Glr, k: nat, limit: nat, fuel: nat)
    requires AllBelow(t, c, g, k, fuel) && Grown(t, c, g, g', k, WorkAt(t, c, g, k), limit)
    ensures AllBelow(t, c, g', k + 1, fuel)
  {
    hide WorkAt;
    forall j: nat | k + 1 <= j < |g'.tops|
      ensures WorkAt(t, c, g', j) < fuel
    {
      if j < |g.tops| { assert SameWork(t, c, g, g', j); }
    }
  }

  /** The loop over all stacks comes to its end. */
  lemma {:induction false} ProcessFromEnds(d: GlrTables, c: Certificate, sup: Supply, text: seq<nat>, p: Point, k: nat,
                                           rounds: nat, fuel: nat)
    requires ConflictsChecked(d, c) && Lexed(d, text) && !Cyclic(c.g) && Safe(d, c, text, p.g) && NoEmptyRules(d.lr)
    requires k <= |p.g.tops| && (p.g.split != NULL || (k == 0 && InConflict(d, text, p.g, 0)))
    requires AllBelow(d.lr, c, p.g, k, fuel) && Ahead(d, c, p.g, k) <= rounds
    ensures ProcessFrom(d, sup, text, p, k, rounds, fuel) != Unfinished
    decreases rounds
  {
    hide ConflictsChecked, Lexed, Cyclic, Safe, Progress, Settled, Process, InConflict, WorkAt, Grown, Offspring,
      Visits, NoEmptyRules;
    if p.g.split == NULL { ConflictLive(d, text, p.g, 0); }
    if k < |p.g.tops| {
      VisitsSome(|d.confl|, WorkAt(d.lr, c, p.g, k));
      ProcessEnds(d, c, sup, text, p, k, fuel);
      var v := Process(d, sup, text, p, k, fuel);
      if v.Ends? {
        ProcessKeeps(d, c, sup, text, p, k, fuel);
        ProgressPart(d, text, p.g, v.p.g, k);
        AheadDrops(d, c, p.g, v.p.g, k);
        BelowOn(d.lr, c, p.g, v.p.g, k, Offspring(|d.confl|, WorkAt(d.lr, c, p.g, k)), fuel);
        ProcessFromEnds(d, c, sup, text, v.p, k + 1, rounds - 1, fuel);
      }
    }
  }

  lemma VisitsSome(n: nat, w: nat)
    ensures Visits(n, w) > 0
  {
    hide Offspring;
    if w > 0 { assert Offspring(n, w) * Visits(n, w - 1) >= 0; }
  }

  /** Some number is above the measures of all stacks. */
  lemma {:induction false} SomeFuel(t: Tables, c: Certificate, g: Glr, k: nat) returns (fuel: nat)
    ensures AllBelow(t, c, g, k, fuel)
    decreases |g.tops| - k
  {
    hide WorkAt;
    if k >= |g.tops| {
      fuel := 0;
    } else {
      var rest := SomeFuel(t, c, g, k + 1);
      var w := WorkAt(t, c, g, k) + 1;
      fuel := if rest < w then w else rest;
    }
  }

  /** A round ends, if it is allowed enough steps. */
  lemma RoundEnds(d: GlrTables, c: Certificate, sup: Supply, text: seq<nat>, p: Point) returns (fuel: nat)
    requires ConflictsChecked(d, c) && Lexed(d, text) && !Cyclic(c.g) && Safe(d, c, text, p.g) && NoEmptyRules(d.lr)
    requires p.g.split != NULL || InConflict(d, text, p.g, 0)
    ensures RoundOn(d, sup, text, p, fuel) != Unfinished
  {
    hide ConflictsChecked, Lexed, Cyclic, Safe, ProcessFrom, InConflict, WorkAt, NoEmptyRules, Shifting, Survivors,
      Targets, Ahead;
    var most := SomeFuel(d.lr, c, p.g, 0);
    var n := Ahead(d, c, p.g, 0);
    fuel := if most < n then n else most;
    ProcessFromEnds(d, c, sup, text, p, 0, fuel, fuel);
    var v := ProcessFrom(d, sup, text, p, 0, fuel, fuel);
    if v.Ends? {
      var g := v.p.g.(tops := Survivors(v.p.g.tops));
      ShiftingAccounted(sup, text, g, Targets(d, text, g), 0, v.p.m);
    }
  }
}
