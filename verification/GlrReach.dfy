/** The loops of `yyparse` are runs: from the arena that a loop starts with, the operations of the GLR parser lead
    to the one that it stops with. */
module GlrReach {
  import opened Grammar
  import opened LrTables
  import opened GlrForest
  import opened GlrMachine
  import opened GlrCyclic
  import opened GlrRun
  import opened GlrStack
  import opened GlrProcess
  import opened UnitSteps

  /** A sequence of operations. */
  ghost predicate Operations(d: GlrTables, c: Certificate, text: seq<nat>, gs: seq<Glr>) {
    gs != [] && forall i: nat | i + 1 < |gs| :: Next(d, c, text, gs[i], gs[i + 1])
  }

  ghost predicate Leads(d: GlrTables, c: Certificate, text: seq<nat>, g: Glr, g': Glr) {
    exists gs :: Operations(d, c, text, gs) && gs[0] == g && gs[|gs| - 1] == g'
  }

  lemma LeadsSelf(d: GlrTables, c: Certificate, text: seq<nat>, g: Glr)
    ensures Leads(d, c, text, g, g)
  {
    assert Operations(d, c, text, [g]);
  }

  lemma LeadsStep(d: GlrTables, c: Certificate, text: seq<nat>, g: Glr, g': Glr)
    requires Next(d, c, text, g, g')
    ensures Leads(d, c, text, g, g')
  {
    hide Next;
    assert Operations(d, c, text, [g, g']);
  }

  lemma LeadsOn(d: GlrTables, c: Certificate, text: seq<nat>, g: Glr, g': Glr, g'': Glr)
    requires Leads(d, c, text, g, g') && Leads(d, c, text, g', g'')
    ensures Leads(d, c, text, g, g'')
  {
    hide Next;
    var gs :| Operations(d, c, text, gs) && gs[0] == g && gs[|gs| - 1] == g';
    var hs :| Operations(d, c, text, hs) && hs[0] == g' && hs[|hs| - 1] == g'';
    var all := gs + hs[1..];
    forall i: nat | i + 1 < |all|
      ensures Next(d, c, text, all[i], all[i + 1])
    {
      if i + 1 < |gs| {
        assert Next(d, c, text, gs[i], gs[i + 1]);
      } else {
        assert all[i] == hs[i + 1 - |gs|] && all[i + 1] == hs[i + 1 - |gs| + 1];
        assert Next(d, c, text, hs[i + 1 - |gs|], hs[i + 1 - |gs| + 1]);
      }
    }
    assert Operations(d, c, text, all) && all[0] == g && all[|all| - 1] == g'';
  }

  /** What the empty stack leads to is reached by a run. */
  lemma {:induction false} OperationsRun(d: GlrTables, c: Certificate, text: seq<nat>, gs: seq<Glr>)
    requires Operations(d, c, text, gs) && exists v :: gs[0] == Start(v)
    ensures Run(d, c, text, gs)
    decreases |gs|
  {
    hide Next;
    if |gs| > 1 {
      var below := gs[..|gs| - 1];
      assert Operations(d, c, text, below) by {
        forall i: nat | i + 1 < |below|
          ensures Next(d, c, text, below[i], below[i + 1])
        {
          assert Next(d, c, text, gs[i], gs[i + 1]);
        }
      }
      OperationsRun(d, c, text, below);
      assert Next(d, c, text, gs[|gs| - 2], gs[|gs| - 2 + 1]);
    }
  }

  /** The result has a configuration, which is reached from `g`. */
  ghost predicate Reaches(d: GlrTables, c: Certificate, text: seq<nat>, g: Glr, r: Result) {
    r.Ends? || r.NoneLeft? || r.NoRoom? ==> Leads(d, c, text, g, r.p.g)
  }

  lemma ReachesOn(d: GlrTables, c: Certificate, text: seq<nat>, g: Glr, g': Glr, r: Result)
    requires Leads(d, c, text, g, g') && Reaches(d, c, text, g', r)
    ensures Reaches(d, c, text, g, r)
  {
    hide Leads;
    if r.Ends? || r.NoneLeft? || r.NoRoom? { LeadsOn(d, c, text, g, g', r.p.g); }
  }

  lemma {:induction false} ProcessReaches(d: GlrTables, c: Certificate, sup: Supply, text: seq<nat>, p: Point, k: nat,
                                          fuel: nat)
    requires Ready(d, c, text, p.g, k)
    ensures Reaches(d, c, text, p.g, Process(d, sup, text, p, k, fuel))
    decreases fuel, 1, 0
  {
    hide ConflictsChecked, Lexed, Cyclic, Safe, Progress, Settled, SameStack, Kill, d.Listed, d.lr.Sized, Follow,
      ReduceOn, Checked, InConflict, Called, Process, Leads;
    var g := p.g;
    ProcessStart(d, sup, text, p, k, fuel);
    LeadsSelf(d, c, text, g);
    if g.tops[k] != NULL {
      StateFacts(d, c, text, g, k);
      if fuel > 0 {
        ProcessStep(d, sup, text, p, k, fuel);
        var s, token := StateOf(d, g, k), TokenAt(text, g.pos);
        if s != d.lr.final {
          if d.lr.IsDefaulted(s) {
            match d.lr.Default(s)
            case ReduceBy(r) =>
              DefaultCalled(d, s, token, r);
              assert CanReduce(d, text, g, k, r);
              ReduceOnReaches(d, c, sup, text, p, k, r, fuel - 1);
            case _ =>
              DefaultFails(d, s, token);
              DiesStep(d, c, text, g, k);
          } else {
            FollowStart(d, s, token);
            FollowReaches(d, c, sup, text, p, k, d.ConflictAt(s, token), fuel - 1);
            var v := Follow(d, sup, text, p, k, d.ConflictAt(s, token), fuel - 1);
            if v.Ends? {
              Followed(d, c, sup, text, p, v.p, k, d.ConflictAt(s, token), fuel - 1);
              match d.lr.Action(s, token)
              case ShiftTo(target) =>
              case Fail =>
                DiesStep(d, c, text, v.p.g, k);
                LeadsOn(d, c, text, g, v.p.g, Kill(v.p.g, k));
              case ReduceBy(r) =>
                ActionCalled(d, s, token, r);
                assert CanReduce(d, text, v.p.g, k, r);
                ReduceOnReaches(d, c, sup, text, v.p, k, r, fuel - 1);
                ReachesOn(d, c, text, g, v.p.g, ReduceOn(d, sup, text, v.p, k, r, fuel - 1));
            }
          }
        }
      }
    }
  }

  lemma DefaultFails(d: GlrTables, s: nat, token: nat)
    requires d.lr.Sized() && s < d.lr.NStates() && d.lr.IsDefaulted(s) && !d.lr.Default(s).ReduceBy?
    ensures d.lr.Action(s, token) == Fail
  {
  }

  lemma DiesStep(d: GlrTables, c: Certificate, text: seq<nat>, g: Glr, k: nat)
    requires g.split != NULL && CanDie(d, text, g, k)
    ensures Leads(d, c, text, g, Kill(g, k))
  {
    hide Leads;
    assert Dies(d, text, g, Kill(g, k));
    LeadsStep(d, c, text, g, Kill(g, k));
  }

  lemma {:induction false} ReduceOnReaches(d: GlrTables, c: Certificate, sup: Supply, text: seq<nat>, p: Point, k: nat,
                                           r: nat, fuel: nat)
    requires Ready(d, c, text, p.g, k) && p.g.split != NULL && CanReduce(d, text, p.g, k, r)
    ensures Reaches(d, c, text, p.g, ReduceOn(d, sup, text, p, k, r, fuel))
    decreases fuel, 1, 1
  {
    hide ConflictsChecked, Lexed, Cyclic, Safe, SameStack, Reduced, Process, Checked, InConflict, CanReduce, Leads;
    ReduceStep(d, c, text, p.g, k, r);
    DefersStep(d, c, text, p.g, k, r);
    var v := Reducing(d, sup, p, k, r);
    ReservedAccounted(sup, Reduced(d.lr, p.g, k, r), p.m);
    if v.Ends? {
      ProcessReaches(d, c, sup, text, v.p, k, fuel);
      ReachesOn(d, c, text, p.g, v.p.g, Process(d, sup, text, v.p, k, fuel));
    }
  }

  lemma DefersStep(d: GlrTables, c: Certificate, text: seq<nat>, g: Glr, k: nat, r: nat)
    requires Ready(d, c, text, g, k) && g.split != NULL && CanReduce(d, text, g, k, r)
    ensures Leads(d, c, text, g, Reduced(d.lr, g, k, r))
  {
    hide ConflictsChecked, Lexed, Cyclic, Safe, SameStack, Checked, InConflict, CanReduce, Leads, ReduceDeferred;
    ReduceStep(d, c, text, g, k, r);
    assert DefersBy(d, g, Reduced(d.lr, g, k, r), k, r);
    assert Defers(d, text, g, Reduced(d.lr, g, k, r));
    LeadsStep(d, c, text, g, Reduced(d.lr, g, k, r));
  }

  lemma {:induction false} FollowReaches(d: GlrTables, c: Certificate, sup: Supply, text: seq<nat>, p: Point, k: nat,
                                         i: nat, fuel: nat)
    requires Ready(d, c, text, p.g, k) && p.g.tops[k] != NULL && StateOf(d, p.g, k) != d.lr.final
    requires ToFollow(d, StateOf(d, p.g, k), TokenAt(text, p.g.pos), i)
    ensures Reaches(d, c, text, p.g, Follow(d, sup, text, p, k, i, fuel))
    decreases fuel, 2, |d.confl| - i
  {
    hide ConflictsChecked, Lexed, Cyclic, Safe, Progress, Settled, SameStack, d.Listed, d.lr.Sized, Forked, Checked,
      InConflict, Called, ToFollow, Leads;
    LeadsSelf(d, c, text, p.g);
    if i < |d.confl| && d.confl[i] != 0 {
      FollowNext(d, StateOf(d, p.g, k), TokenAt(text, p.g.pos), i);
      ForkedReaches(d, c, sup, text, p, k, d.confl[i], fuel);
      var v := Forked(d, sup, text, p, k, d.confl[i], fuel);
      if v.Ends? {
        ForkedFacts(d, c, sup, text, p, v.p, k, d.confl[i], fuel);
        FollowReaches(d, c, sup, text, v.p, k, i + 1, fuel);
        ReachesOn(d, c, text, p.g, v.p.g, Follow(d, sup, text, v.p, k, i + 1, fuel));
      }
    }
  }

  lemma {:induction false} ForkedReaches(d: GlrTables, c: Certificate, sup: Supply, text: seq<nat>, p: Point, k: nat,
                                         r: nat, fuel: nat)
    requires Ready(d, c, text, p.g, k) && p.g.tops[k] != NULL && d.lr.Sized()
    requires StateOf(d, p.g, k) != d.lr.final && StateOf(d, p.g, k) < d.lr.NStates()
    requires Called(d, StateOf(d, p.g, k), TokenAt(text, p.g.pos), r)
    ensures Reaches(d, c, text, p.g, Forked(d, sup, text, p, k, r, fuel))
    decreases fuel, 1, 2
  {
    hide ConflictsChecked, Lexed, Cyclic, Safe, SameStack, ReduceOn, Reduced, Called, InConflict, SplitStack, CanReduce,
      Leads;
    StateFacts(d, c, text, p.g, k);
    ForkStep(d, c, text, p.g, k, r);
    var g1 := SplitStack(p.g, k);
    assert Forks(p.g, g1);
    LeadsStep(d, c, text, p.g, g1);
    ReduceOnReaches(d, c, sup, text, p.(g := g1), |p.g.tops|, r, fuel);
    ReachesOn(d, c, text, p.g, g1, ReduceOn(d, sup, text, p.(g := g1), |p.g.tops|, r, fuel));
  }

  lemma {:induction false} ProcessFromReaches(d: GlrTables, c: Certificate, sup: Supply, text: seq<nat>, p: Point,
                                              k: nat, rounds: nat, fuel: nat)
    requires ConflictsChecked(d, c) && Lexed(d, text) && !Cyclic(c.g) && Safe(d, c, text, p.g)
    requires k <= |p.g.tops| && (p.g.split != NULL || (k == 0 && InConflict(d, text, p.g, 0)))
    ensures Reaches(d, c, text, p.g, ProcessFrom(d, sup, text, p, k, rounds, fuel))
    decreases rounds
  {
    hide ConflictsChecked, Lexed, Cyclic, Safe, Progress, Settled, Process, InConflict, Leads;
    LeadsSelf(d, c, text, p.g);
    if k < |p.g.tops| && rounds > 0 {
      ProcessReaches(d, c, sup, text, p, k, fuel);
      var v := Process(d, sup, text, p, k, fuel);
      if v.Ends? {
        ProcessKeeps(d, c, sup, text, p, k, fuel);
        ProgressPart(d, text, p.g, v.p.g, k);
        ProcessFromReaches(d, c, sup, text, v.p, k + 1, rounds - 1, fuel);
        ReachesOn(d, c, text, p.g, v.p.g, ProcessFrom(d, sup, text, v.p, k + 1, rounds - 1, fuel));
      }
    }
  }

  /** Some of the stacks of `g` have shifted the token. */
  ghost predicate Halfway(d: GlrTables, text: seq<nat>, g: Glr, g': Glr) {
    && AllShift(d, text, g, Targets(d, text, g))
    && exists n: nat :: 0 < n <= |g.tops| && g' == ShiftFirst(g, text, Targets(d, text, g), n)
  }

  /** What a round comes to: an arena that is reached from `g`, or memory that runs out while the stacks
      of such an arena shift. */
  ghost predicate Comes(d: GlrTables, c: Certificate, text: seq<nat>, g: Glr, r: Result) {
    || Reaches(d, c, text, g, r)
    || (r.NoRoom? && exists g1 :: Leads(d, c, text, g, g1) && Halfway(d, text, g1, r.p.g))
  }

  lemma ComesOn(d: GlrTables, c: Certificate, text: seq<nat>, g: Glr, g': Glr, r: Result)
    requires Leads(d, c, text, g, g') && Comes(d, c, text, g', r)
    ensures Comes(d, c, text, g, r)
  {
    hide Leads, Halfway;
    if Reaches(d, c, text, g', r) {
      ReachesOn(d, c, text, g, g', r);
    } else {
      var g1 :| Leads(d, c, text, g', g1) && Halfway(d, text, g1, r.p.g);
      LeadsOn(d, c, text, g, g', g1);
    }
  }

  lemma {:induction false} ShiftingHalts(sup: Supply, text: seq<nat>, g: Glr, targets: seq<nat>, k: nat, m: Memory)
    requires k <= |targets| == |g.tops| && Shifting(sup, text, g, targets, k, m).NoRoom?
    ensures exists n: nat ::
      k < n <= |g.tops| && Shifting(sup, text, g, targets, k, m).p.g == ShiftFirst(g, text, targets, n)
    decreases |targets| - k
  {
    hide ShiftFirst;
    if k < |targets| {
      var v := Reserved(sup, ShiftFirst(g, text, targets, k + 1), m);
      if v.Ends? { ShiftingHalts(sup, text, g, targets, k + 1, v.p.m); }
    }
  }

  /** The live stacks shift the token. */
  lemma ShiftingReaches(d: GlrTables, c: Certificate, sup: Supply, text: seq<nat>, g: Glr, m: Memory)
    requires AllShift(d, text, g, Targets(d, text, g)) && g.tops != []
    ensures Comes(d, c, text, g, Shifting(sup, text, g, Targets(d, text, g), 0, m))
  {
    hide Leads, AllShift, ShiftAll, ShiftFirst, Targets;
    var targets := Targets(d, text, g);
    var r := Shifting(sup, text, g, targets, 0, m);
    ShiftingAccounted(sup, text, g, targets, 0, m);
    if r.Ends? {
      assert Shifts(d, text, g, ShiftAll(g, text, targets));
      LeadsStep(d, c, text, g, ShiftAll(g, text, targets));
    } else {
      ShiftingHalts(sup, text, g, targets, 0, m);
      LeadsSelf(d, c, text, g);
      assert Halfway(d, text, g, r.p.g);
    }
  }

  /** A round consists of operations of the GLR parser. */
  lemma RoundReaches(d: GlrTables, c: Certificate, sup: Supply, text: seq<nat>, p: Point, fuel: nat)
    requires ConflictsChecked(d, c) && Lexed(d, text) && !Cyclic(c.g) && Safe(d, c, text, p.g)
    requires p.g.split != NULL || InConflict(d, text, p.g, 0)
    ensures Comes(d, c, text, p.g, RoundOn(d, sup, text, p, fuel))
  {
    hide ConflictsChecked, Lexed, Cyclic, Safe, InConflict, Leads, ProcessFrom, Survivors, Shifting, Settled, Targets,
      AllShift, Halfway;
    ProcessFromReaches(d, c, sup, text, p, 0, fuel, fuel);
    var v := ProcessFrom(d, sup, text, p, 0, fuel, fuel);
    if v.Ends? {
      ProcessFromKeeps(d, c, sup, text, p, 0, fuel, fuel);
      SurvivorsSettled(d, c, text, v.p.g);
      var g := v.p.g.(tops := Survivors(v.p.g.tops));
      LeadsStep(d, c, text, v.p.g, g);
      LeadsOn(d, c, text, p.g, v.p.g, g);
      if g.tops != [] {
        AllSettledShift(d, text, g);
        ShiftingReaches(d, c, sup, text, g, v.p.m);
        ComesOn(d, c, text, p.g, g, Shifting(sup, text, g, Targets(d, text, g), 0, v.p.m));
      }
    }
  }
}
