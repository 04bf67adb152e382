/** Over whole parses: the stacks of the GLR parser are the paths of the nondeterministic automaton, and a syntax error
    is reported at the first token that no path can shift. */
module GlrExact {
  import opened Grammar
  import opened LrTables
  import opened GlrForest
  import opened GlrMachine
  import opened GlrLoose
  import opened GlrChoice
  import opened GlrTrace
  import opened GlrCyclic
  import opened GlrRun
  import opened GlrStack
  import opened GlrProcess
  import opened GlrReach
  import opened GlrParse
  import opened GlrTurns
  import opened GlrWork
  import opened GlrNondet
  import opened GlrComplete
  import opened UnitSteps
  import GlrFinal
  import Pursuit = GlrPursuit
  import Thorough = GlrThorough
  import GlrCompress
  import GlrReturn

  /** Every path of the automaton that is about to shift the token is one that a stack leads to. */
  ghost predicate Covers(d: GlrTables, text: seq<nat>, g: Glr) {
    forall ss, s': nat | Awaits(d, text, g.pos, ss) && ShiftsTo(d, ss, TokenAt(text, g.pos), s') ::
      LeadsUp(d, text, g, ss)
  }

  /** No path of the automaton shifts token number `n`. */
  ghost predicate Refused(d: GlrTables, text: seq<nat>, n: nat) {
    forall ss, s': nat | Awaits(d, text, n, ss) :: !ShiftsTo(d, ss, TokenAt(text, n), s')
  }

  /** Every path of the automaton that has read all tokens before the position is that of a stack. */
  ghost predicate AllPresent(d: GlrTables, text: seq<nat>, g: Glr) {
    forall ss | Reads(d, text, g.pos, ss) :: Present(g, ss)
  }

  lemma PresentCovers(d: GlrTables, text: seq<nat>, g: Glr)
    requires AllPresent(d, text, g)
    ensures Covers(d, text, g)
  {
    hide Reads, Becomes, ShiftsTo;
    forall ss, s': nat | Awaits(d, text, g.pos, ss) && ShiftsTo(d, ss, TokenAt(text, g.pos), s')
      ensures LeadsUp(d, text, g, ss)
    {
      var start: seq<nat> :| Reads(d, text, g.pos, start) && Becomes(d, TokenAt(text, g.pos), start, ss);
      assert Present(g, start);
    }
  }

  lemma {:induction false} SurvivorsHas(tops: seq<Ref>, x: Ref)
    requires x in tops && x != NULL
    ensures x in Survivors(tops)
    decreases |tops|
  {
    if tops[|tops| - 1] != x { SurvivorsHas(tops[..|tops| - 1], x); }
  }

  lemma SurvivorsPresent(g: Glr, ss: seq<nat>)
    requires Present(g, ss)
    ensures Present(g.(tops := Survivors(g.tops)), ss)
  {
    var k: nat :| IsLive(g, k) && StackOf(g, k) == ss;
    SurvivorsHas(g.tops, g.tops[k]);
    var live := Survivors(g.tops);
    var j: nat :| j < |live| && live[j] == g.tops[k];
    assert IsLive(g.(tops := live), j);
  }

  /** A stack that has shifted the token. */
  lemma ShiftedStack(d: GlrTables, c: Certificate, text: seq<nat>, g: Glr, targets: seq<nat>, j: nat)
    requires ConflictsChecked(d, c) && Lexed(d, text) && |targets| == |g.tops| && AllShift(d, text, g, targets)
    requires j < |g.tops|
    ensures var g' := ShiftAll(g, text, targets);
      IsLive(g', j) && IsLive(g, j) && StackOf(g', j) == StackOf(g, j) + [targets[j]]
  {
    hide ConflictsChecked, Lexed, AllShift, ShiftFirst, d.lr.Sized, d.lr.Action;
    GlrFinal.ShiftedState(d, c, text, g, targets, j);
    GlrFinal.ShiftedCells(g, text, targets, |targets|, j);
    var g' := ShiftAll(g, text, targets);
    PrefixPath(g.cells, g'.cells, g.tops[j]);
    assert g'.cells[..|g.cells|] == g.cells;
  }

  lemma {:induction false} PrefixPath(a: Cells, b: Cells, i: Ref)
    requires |a| <= |b| && b[..|a|] == a && i < |a|
    ensures Path(b, i) == Path(a, i)
    decreases i
  {
    if 0 <= i < |a| {
      assert b[..|a|][i] == a[i];
      if IsState(a, i) && a[i].pred < i { PrefixPath(a, b, a[i].pred); }
    }
  }

  /** The live stacks shift the token: the paths that shift it are all there afterwards. */
  lemma ShiftedPresent(d: GlrTables, c: Certificate, text: seq<nat>, g: Glr)
    requires ConflictsChecked(d, c) && Lexed(d, text) && AllShift(d, text, g, Targets(d, text, g))
    requires forall ss, s': nat | Awaits(d, text, g.pos, ss) && ShiftsTo(d, ss, TokenAt(text, g.pos), s') ::
      Present(g, ss)
    ensures var g' := ShiftAll(g, text, Targets(d, text, g)); g'.pos == g.pos + 1 && AllPresent(d, text, g')
  {
    hide ConflictsChecked, Lexed, AllShift, Awaits, ShiftFirst;
    var targets := Targets(d, text, g);
    var g' := ShiftAll(g, text, targets);
    forall ss | Reads(d, text, g'.pos, ss)
      ensures Present(g', ss)
    {
      var before: seq<nat>, s': nat :|
        Awaits(d, text, g.pos, before) && ShiftsTo(d, before, TokenAt(text, g.pos), s') && ss == before + [s'];
      assert Present(g, before);
      var k: nat :| IsLive(g, k) && StackOf(g, k) == before;
      ShiftedStack(d, c, text, g, targets, k);
      LastOfPath(g.cells, g.tops[k]);
      assert targets[k] == s';
    }
  }

  /** Shifts add no unresolved state. */
  lemma {:induction false} ShiftedTimely(g: Glr, text: seq<nat>, targets: seq<nat>, n: nat, m: nat)
    requires n <= |targets| == |g.tops| && Timely(g, m)
    ensures Timely(ShiftFirst(g, text, targets, n), m)
    decreases n
  {
    if n > 0 { ShiftedTimely(g, text, targets, n - 1, m); }
  }

  /** While stacks are processed the parser does not run out of them: that is found out afterwards. */
  lemma {:induction false} ProcessGoesOn(d: GlrTables, sup: Supply, text: seq<nat>, p: Point, k: nat, fuel: nat)
    ensures !Process(d, sup, text, p, k, fuel).NoneLeft?
    decreases fuel, 1, 0
  {
    hide Kill, Follow, ReduceOn, d.lr.Action, d.lr.Default;
    if d.lr.Sized() && k < |p.g.tops| && p.g.tops[k] != NULL && fuel > 0 {
      var s, token := StateOf(d, p.g, k), TokenAt(text, p.g.pos);
      if d.lr.IsDefaulted(s) {
        match d.lr.Default(s)
        case ReduceBy(r) => ReduceOnGoesOn(d, sup, text, p, k, r, fuel - 1);
        case _ =>
      } else {
        FollowGoesOn(d, sup, text, p, k, d.ConflictAt(s, token), fuel - 1);
        var v := Follow(d, sup, text, p, k, d.ConflictAt(s, token), fuel - 1);
        if v.Ends? {
          match d.lr.Action(s, token)
          case ReduceBy(r) => ReduceOnGoesOn(d, sup, text, v.p, k, r, fuel - 1);
          case _ =>
        }
      }
    }
  }

  lemma {:induction false} ReduceOnGoesOn(d: GlrTables, sup: Supply, text: seq<nat>, p: Point, k: nat, r: nat,
                                          fuel: nat)
    ensures !ReduceOn(d, sup, text, p, k, r, fuel).NoneLeft?
    decreases fuel, 1, 1
  {
    hide Process;
    ReservedAccounted(sup, Reduced(d.lr, p.g, k, r), p.m);
    var v := Reducing(d, sup, p, k, r);
    if v.Ends? { ProcessGoesOn(d, sup, text, v.p, k, fuel); }
  }

  lemma {:induction false} FollowGoesOn(d: GlrTables, sup: Supply, text: seq<nat>, p: Point, k: nat, i: nat, fuel: nat)
    ensures !Follow(d, sup, text, p, k, i, fuel).NoneLeft?
    decreases fuel, 2, |d.confl| - i
  {
    hide ReduceOn, SplitStack;
    if i < |d.confl| && d.confl[i] != 0 && k < |p.g.tops| {
      ReduceOnGoesOn(d, sup, text, p.(g := SplitStack(p.g, k)), |p.g.tops|, d.confl[i], fuel);
      var v := Forked(d, sup, text, p, k, d.confl[i], fuel);
      if v.Ends? { FollowGoesOn(d, sup, text, v.p, k, i + 1, fuel); }
    }
  }

  lemma {:induction false} ProcessFromGoesOn(d: GlrTables, sup: Supply, text: seq<nat>, p: Point, k: nat, rounds: nat,
                                             fuel: nat)
    ensures !ProcessFrom(d, sup, text, p, k, rounds, fuel).NoneLeft?
    decreases rounds
  {
    hide Process;
    if k < |p.g.tops| && rounds > 0 {
      ProcessGoesOn(d, sup, text, p, k, fuel);
      var v := Process(d, sup, text, p, k, fuel);
      if v.Ends? { ProcessFromGoesOn(d, sup, text, v.p, k + 1, rounds - 1, fuel); }
    }
  }

  /** A round loses no path: if it ends, all paths that have read the token are there; if no stack is left, there is no
      such path. */
  lemma RoundComplete(d: GlrTables, c: Certificate, sup: Supply, text: seq<nat>, p: Point, fuel: nat)
    requires ConflictsChecked(d, c) && Lexed(d, text) && !Cyclic(c.g) && Safe(d, c, text, p.g)
    requires (p.g.split != NULL || InConflict(d, text, p.g, 0)) && Timely(p.g, p.g.pos) && Covers(d, text, p.g)
    ensures match RoundOn(d, sup, text, p, fuel)
      case Ends(q) => q.g.pos == p.g.pos + 1 && AllPresent(d, text, q.g) && Timely(q.g, q.g.pos)
      case NoneLeft(q) => q.g.pos == p.g.pos && Refused(d, text, q.g.pos)
      case _ => true
  {
    hide ConflictsChecked, Lexed, Cyclic, Safe, InConflict, ProcessFrom, Survivors, Shifting, Settled, Targets,
      AllShift, Timely, AllPresent, Awaits, ShiftsTo, Present, ShiftFirst, LeadsUp, ShiftAll;
    ProcessFromGoesOn(d, sup, text, p, 0, fuel, fuel);
    var v := ProcessFrom(d, sup, text, p, 0, fuel, fuel);
    if v.Ends? {
      ProcessFromKeeps(d, c, sup, text, p, 0, fuel, fuel);
      SurvivorsSettled(d, c, text, v.p.g);
      var g := v.p.g.(tops := Survivors(v.p.g.tops));
      forall ss, s': nat | Awaits(d, text, g.pos, ss) && ShiftsTo(d, ss, TokenAt(text, g.pos), s')
        ensures Present(g, ss)
      {
        assert LeadsUp(d, text, p.g, ss);
        ProcessedPresent(d, c, sup, text, p, fuel, ss, s');
        SurvivorsPresent(v.p.g, ss);
      }
      if g.tops == [] {
        NonePresent(d, text, g);
      } else {
        AllSettledShift(d, text, g);
        ShiftingAccounted(sup, text, g, Targets(d, text, g), 0, v.p.m);
        ShiftedPresent(d, c, text, g);
        ProcessedTimely(d, c, sup, text, p, fuel);
        ShiftedAllTimely(g, text, Targets(d, text, g)) by { SameTimely(v.p.g, g, g.pos + 1); }
      }
    }
  }

  lemma NonePresent(d: GlrTables, text: seq<nat>, g: Glr)
    requires g.tops == []
    requires forall ss, s': nat | Awaits(d, text, g.pos, ss) && ShiftsTo(d, ss, TokenAt(text, g.pos), s') ::
      Present(g, ss)
    ensures Refused(d, text, g.pos)
  {
    hide Awaits, ShiftsTo;
  }

  lemma SameTimely(g: Glr, g': Glr, n: nat)
    requires Timely(g, n) && g'.cells == g.cells
    ensures Timely(g', n)
  {
  }

  lemma ShiftedAllTimely(g: Glr, text: seq<nat>, targets: seq<nat>)
    requires |targets| == |g.tops| && Timely(g, g.pos + 1)
    ensures var g' := ShiftAll(g, text, targets); Timely(g', g'.pos)
  {
    hide Timely, ShiftFirst;
    ShiftedTimely(g, text, targets, |targets|, g.pos + 1);
    SameTimely(ShiftFirst(g, text, targets, |targets|), ShiftAll(g, text, targets), g.pos + 1);
  }

  lemma ProcessedTimely(d: GlrTables, c: Certificate, sup: Supply, text: seq<nat>, p: Point, fuel: nat)
    requires ConflictsChecked(d, c) && Lexed(d, text) && !Cyclic(c.g) && Safe(d, c, text, p.g)
    requires (p.g.split != NULL || InConflict(d, text, p.g, 0)) && Timely(p.g, p.g.pos)
    requires ProcessFrom(d, sup, text, p, 0, fuel, fuel).Ends?
    ensures var g := ProcessFrom(d, sup, text, p, 0, fuel, fuel).p.g; Timely(g, p.g.pos + 1)
  {
    hide ConflictsChecked, Lexed, Cyclic, Safe, InConflict, ProcessFrom, Timely, Pursuit.Works, Pursuit.Steady,
      Pursuit.TakenUp;
    var gs := Thorough.ProcessFromThorough(d, c, sup, text, p, 0, fuel, fuel);
    Pursuit.SegmentEnds(d, text, gs, p.g, ProcessFrom(d, sup, text, p, 0, fuel, fuel).p.g, 0, 0, NULL);
    TrailKnown(d, c, text, gs, |gs| - 1);
  }

  /** The second loop loses none. */
  lemma {:induction false} RoundsComplete(d: GlrTables, c: Certificate, sup: Supply, text: seq<nat>, p: Point,
                                          rounds: nat, fuel: nat)
    requires ConflictsChecked(d, c) && Lexed(d, text) && !Cyclic(c.g) && Safe(d, c, text, p.g)
    requires (p.g.split != NULL || InConflict(d, text, p.g, 0)) && Timely(p.g, p.g.pos) && Covers(d, text, p.g)
    ensures match Rounds(d, sup, text, p, rounds, fuel)
      case Ends(q) => AllPresent(d, text, q.g)
      case NoneLeft(q) => Refused(d, text, q.g.pos)
      case _ => true
    decreases rounds
  {
    hide ConflictsChecked, Lexed, Cyclic, Safe, InConflict, RoundOn, Timely, AllPresent, Covers, Refused;
    if rounds > 0 {
      RoundComplete(d, c, sup, text, p, fuel);
      var v := RoundOn(d, sup, text, p, fuel);
      if v.Ends? && |v.p.g.tops| != 1 {
        RoundKeeps(d, c, sup, text, p, fuel);
        PresentCovers(d, text, v.p.g);
        RoundsComplete(d, c, sup, text, v.p, rounds - 1, fuel);
      }
    }
  }

  /** The path of the only stack in deterministic operation. */
  lemma SinglePath(d: GlrTables, c: Certificate, text: seq<nat>, g: Glr)
    requires Single(d, c, text, g) && Lexed(d, text)
    ensures |g.tops| == 1 && IsLive(g, 0) && g.tops[0] == |g.cells| - 1 && |StackOf(g, 0)| == |g.cells|
    ensures forall j | 0 <= j < |g.cells| :: g.cells[j].StateCell? && StackOf(g, 0)[j] == g.cells[j].lr
    ensures Timely(g, g.pos)
  {
    hide Forest, Path, Checked;
    SingleFacts(d, c, text, g);
    ContiguousPath(g.cells, |g.cells| - 1);
    assert forall j | 0 <= j < |g.cells| :: IsState(g.cells, j);
  }

  /** The cells after a reduction in deterministic operation. */
  lemma NowCells(t: Tables, g: Glr, r: nat)
    requires t.Sized() && t.IsRule(r) && t.r2[r] < |g.cells| && |g.tops| == 1
    requires var b := g.cells[|g.cells| - 1 - t.r2[r]]; b.StateCell? && b.lr < t.NStates()
    ensures var g', m := NowReduced(t, g, r), |g.cells| - t.r2[r];
      && g' == ReduceNow(t, g, r) && |g'.cells| == m + 1 && g'.cells[..m] == g.cells[..m] && g'.pos == g.pos
      && g'.cells[m].StateCell? && g'.cells[m].lr == Target(t, g.cells[m - 1].lr, t.r1[r])
  {
    hide TopValues;
    assert r < |t.r2|;
  }

  /** The path after it. */
  lemma PathReduct(t: Tables, a: Cells, b: Cells, ss: seq<nat>, ss': seq<nat>, r: nat)
    requires t.Sized() && t.IsRule(r) && r < |t.r2| && t.r2[r] < |a| && |ss| == |a|
    requires var m := |a| - t.r2[r]; |ss'| == |b| == m + 1 && b[..m] == a[..m]
    requires forall j | 0 <= j < |a| :: a[j].StateCell? && ss[j] == a[j].lr
    requires forall j | 0 <= j < |b| :: b[j].StateCell? && ss'[j] == b[j].lr
    requires var m := |a| - t.r2[r]; b[m].lr == Target(t, a[m - 1].lr, t.r1[r])
    ensures ss' == Reduct(t, ss, r)
  {
    hide t.Sized, Target;
    var m := |a| - t.r2[r];
    forall j | 0 <= j < m
      ensures ss'[j] == ss[j]
    {
      assert b[..m][j] == a[..m][j];
    }
    assert ss' == ss[..m] + [ss'[m]];
  }

  lemma ReducedPath(d: GlrTables, c: Certificate, text: seq<nat>, g: Glr, r: nat)
    requires ConflictsChecked(d, c) && Lexed(d, text) && !Cyclic(c.g) && Single(d, c, text, g)
    requires CanReduce(d, text, g, 0, r)
    ensures var g' := NowReduced(d.lr, g, r);
      && Single(d, c, text, g') && |g.tops| == |g'.tops| == 1 && g'.pos == g.pos
      && StackOf(g', 0) == Reduct(d.lr, StackOf(g, 0), r)
  {
    hide ConflictsChecked, Lexed, Cyclic, Single, CanReduce, Path, Inv, Safe, Timely, Checked, ReductionSound, Reduct,
      ReduceNow, NowReduced, Target, RulesMatch;
    SingleFacts(d, c, text, g);
    ReducesStep(d, c, text, g, r);
    SafeSingle(d, c, text, g);
    ReducedNow(d, c, text, g, r);
    NowCells(d.lr, g, r);
    var g' := NowReduced(d.lr, g, r);
    SinglePath(d, c, text, g);
    SinglePath(d, c, text, g');
    PathReduct(d.lr, g.cells, g'.cells, StackOf(g, 0), StackOf(g', 0), r);
  }

  lemma SafeSingle(d: GlrTables, c: Certificate, text: seq<nat>, g: Glr)
    requires Single(d, c, text, g)
    ensures Safe(d, c, text, g) && g.split == NULL
  {
    hide Safe;
  }

  lemma ShiftedPath(d: GlrTables, c: Certificate, text: seq<nat>, g: Glr, target: nat)
    requires ConflictsChecked(d, c) && Lexed(d, text) && !Cyclic(c.g) && Single(d, c, text, g)
    requires CanShift(d, text, g, 0, target)
    ensures |g.tops| == 1
    ensures var g' := NowShifted(g, target, TokenAt(text, g.pos));
      && Single(d, c, text, g') && |g'.tops| == 1 && g'.pos == g.pos + 1 && IsLive(g', 0)
      && StackOf(g', 0) == StackOf(g, 0) + [target]
  {
    hide ConflictsChecked, Lexed, Cyclic, Single, CanShift, Path, Inv, Timely;
    SingleFacts(d, c, text, g);
    ShiftsStep(d, c, text, g, target);
    var g' := NowShifted(g, target, TokenAt(text, g.pos));
    SinglePath(d, c, text, g);
    SinglePath(d, c, text, g');
    assert StackOf(g', 0) == StackOf(g, 0) + [target];
  }

  /** Without a conflict there is one way to go on. */
  lemma OneWay(d: GlrTables, text: seq<nat>, g: Glr, ss: seq<nat>, s': nat)
    requires IsLive(g, 0) && d.lr.Sized() && g.cells[g.tops[0]].lr < d.lr.NStates() && !InConflict(d, text, g, 0)
    requires Becomes(d, TokenAt(text, g.pos), StackOf(g, 0), ss) && ShiftsTo(d, ss, TokenAt(text, g.pos), s')
    ensures match d.lr.Action(g.cells[g.tops[0]].lr, TokenAt(text, g.pos))
      case ShiftTo(target) => ss == StackOf(g, 0) && s' == target
      case ReduceBy(r) => Becomes(d, TokenAt(text, g.pos), Reduct(d.lr, StackOf(g, 0), r), ss)
      case Fail => false
  {
    hide Path, Becomes, d.lr.Sized, d.lr.Action;
    LastOfPath(g.cells, g.tops[0]);
    if ss != StackOf(g, 0) {
      var next := BecomesSplit(d, TokenAt(text, g.pos), StackOf(g, 0), ss);
      var r: nat :| Reducible(d, StackOf(g, 0), TokenAt(text, g.pos), r) && next == Reduct(d.lr, StackOf(g, 0), r);
    }
  }

  /** What stops the first loop at an error is met by all paths. */
  lemma OneWayCovers(d: GlrTables, c: Certificate, text: seq<nat>, g: Glr)
    requires ConflictsChecked(d, c) && Lexed(d, text) && !Cyclic(c.g) && Single(d, c, text, g) && Covers(d, text, g)
    requires !InConflict(d, text, g, 0)
    ensures d.lr.Sized() && IsLive(g, 0) && g.cells[g.tops[0]].lr < d.lr.NStates() && |g.tops| == 1
    ensures var state, token := g.cells[g.tops[0]].lr, TokenAt(text, g.pos);
      state != d.lr.final ==>
        match d.lr.Action(state, token)
        case ShiftTo(target) => Covers(d, text, NowShifted(g, target, token))
        case ReduceBy(r) => Covers(d, text, NowReduced(d.lr, g, r))
        case Fail => Refused(d, text, g.pos)
  {
    hide ConflictsChecked, Lexed, Cyclic, Single, InConflict, Inv, Path, d.lr.Sized, CanReduce, CanShift, Awaits,
      ShiftsTo, Becomes, d.lr.Action, NowReduced, NowShifted, Reads, Called;
    SingleFacts(d, c, text, g);
    var state, token := g.cells[g.tops[0]].lr, TokenAt(text, g.pos);
    Decision(d, text, g, state);
    if state != d.lr.final {
      match d.lr.Action(state, token)
      case ShiftTo(target) =>
        ShiftedPath(d, c, text, g, target);
        ShiftCovers(d, text, g, NowShifted(g, target, token), target);
      case ReduceBy(r) =>
        ReducedPath(d, c, text, g, r);
        ReduceCovers(d, c, text, g, NowReduced(d.lr, g, r), r);
      case Fail =>
        forall ss, s': nat | Awaits(d, text, g.pos, ss)
          ensures !ShiftsTo(d, ss, token, s')
        {
          if ShiftsTo(d, ss, token, s') { OnlyStack(d, text, g, ss, s'); OneWay(d, text, g, ss, s'); }
        }
    }
  }

  lemma OnlyStack(d: GlrTables, text: seq<nat>, g: Glr, ss: seq<nat>, s': nat)
    requires Covers(d, text, g) && |g.tops| == 1
    requires Awaits(d, text, g.pos, ss) && ShiftsTo(d, ss, TokenAt(text, g.pos), s')
    ensures Becomes(d, TokenAt(text, g.pos), StackOf(g, 0), ss)
  {
    hide Awaits, Becomes, ShiftsTo;
    assert LeadsUp(d, text, g, ss);
  }

  lemma ReduceCovers(d: GlrTables, c: Certificate, text: seq<nat>, g: Glr, g': Glr, r: nat)
    requires Covers(d, text, g) && |g.tops| == 1 && IsLive(g, 0) && d.lr.Sized()
    requires g.cells[g.tops[0]].lr < d.lr.NStates() && !InConflict(d, text, g, 0)
    requires d.lr.Action(g.cells[g.tops[0]].lr, TokenAt(text, g.pos)) == ReduceBy(r)
    requires Single(d, c, text, g') && Lexed(d, text) && |g'.tops| == 1 && g'.pos == g.pos
    requires StackOf(g', 0) == Reduct(d.lr, StackOf(g, 0), r)
    ensures Covers(d, text, g')
  {
    hide Awaits, Becomes, ShiftsTo, Single, InConflict, d.lr.Sized, d.lr.Action, Path, Lexed;
    SinglePath(d, c, text, g');
    forall ss, s': nat | Awaits(d, text, g'.pos, ss) && ShiftsTo(d, ss, TokenAt(text, g'.pos), s')
      ensures LeadsUp(d, text, g', ss)
    {
      OnlyStack(d, text, g, ss, s');
      OneWay(d, text, g, ss, s');
      assert IsLive(g', 0);
    }
  }

  lemma ShiftCovers(d: GlrTables, text: seq<nat>, g: Glr, g': Glr, target: nat)
    requires Covers(d, text, g) && |g.tops| == 1 && IsLive(g, 0) && d.lr.Sized() && IsLive(g', 0)
    requires g.cells[g.tops[0]].lr < d.lr.NStates() && !InConflict(d, text, g, 0)
    requires d.lr.Action(g.cells[g.tops[0]].lr, TokenAt(text, g.pos)) == ShiftTo(target)
    requires |g'.tops| == 1 && g'.pos == g.pos + 1 && StackOf(g', 0) == StackOf(g, 0) + [target]
    ensures Covers(d, text, g')
  {
    hide Awaits, Becomes, ShiftsTo, InConflict, d.lr.Sized, d.lr.Action, Path;
    forall ss | Reads(d, text, g'.pos, ss)
      ensures Present(g', ss)
    {
      var before: seq<nat>, s': nat :|
        Awaits(d, text, g.pos, before) && ShiftsTo(d, before, TokenAt(text, g.pos), s') && ss == before + [s'];
      OnlyStack(d, text, g, before, s');
      OneWay(d, text, g, before, s');
      assert IsLive(g', 0) && StackOf(g', 0) == ss;
    }
    PresentCovers(d, text, g');
  }

  /** The first loop loses no path. */
  lemma {:induction false} NowComplete(d: GlrTables, c: Certificate, sup: Supply, text: seq<nat>, p: Point, fuel: nat)
    requires ConflictsChecked(d, c) && Lexed(d, text) && !Cyclic(c.g) && Single(d, c, text, p.g) && Covers(d, text, p.g)
    ensures var (q, stop) := RunNow(d, sup, text, p, fuel);
      Covers(d, text, q.g) && (stop.SyntaxError? ==> Refused(d, text, q.g.pos))
    decreases fuel, 0
  {
    hide ConflictsChecked, Lexed, Cyclic, Single, NowReduced, NowShifted, RunNow, RunOn, CanReduce, CanShift,
      InConflict, Inv, d.lr.Sized, Covers, Refused;
    SingleFacts(d, c, text, p.g);
    NowStep(d, sup, text, p, fuel);
    var state, token := StateOf(d, p.g, 0), TokenAt(text, p.g.pos);
    Decision(d, text, p.g, state);
    NoDefaultConflicts(d, c);
    if fuel > 0 && state != d.lr.final && !InConflict(d, text, p.g, 0) {
      OneWayCovers(d, c, text, p.g);
      match d.lr.Action(state, token)
      case ShiftTo(target) =>
        ShiftsStep(d, c, text, p.g, target);
        OnComplete(d, c, sup, text, NowShifted(p.g, target, token), p.m, fuel - 1);
      case Fail =>
      case ReduceBy(r) =>
        ReducesStep(d, c, text, p.g, r);
        OnComplete(d, c, sup, text, NowReduced(d.lr, p.g, r), p.m, fuel - 1);
    }
  }

  lemma {:induction false} OnComplete(d: GlrTables, c: Certificate, sup: Supply, text: seq<nat>, g: Glr, m: Memory,
                                      fuel: nat)
    requires ConflictsChecked(d, c) && Lexed(d, text) && !Cyclic(c.g) && Single(d, c, text, g) && Covers(d, text, g)
    ensures var (q, stop) := RunOn(d, sup, text, g, m, fuel);
      Covers(d, text, q.g) && (stop.SyntaxError? ==> Refused(d, text, q.g.pos))
    decreases fuel, 1
  {
    hide ConflictsChecked, Lexed, Cyclic, Single, RunNow, Covers, Refused;
    ReservedAccounted(sup, g, m);
    var v := Reserved(sup, g, m);
    if v.Ends? { NowComplete(d, c, sup, text, v.p, fuel); }
  }

  /** A turn loses no path: it goes on with all of them, and at a syntax error there is none that shifts the token. */
  lemma TurnComplete(d: GlrTables, sup: Supply, w: Priorities, merge: Merger, c: Certificate, text: seq<nat>,
                     fuel: nat, p: Point, stop: Stop, end: Point)
    requires ConflictsChecked(d, c) && Lexed(d, text) && !Cyclic(c.g) && Single(d, c, text, p.g) && Covers(d, text, p.g)
    requires Turn(d, sup, w, merge, c, text, fuel, p, stop, end)
    ensures stop.Returned? ==> Single(d, c, text, end.g) && Covers(d, text, end.g)
    ensures stop.SyntaxError? ==> Refused(d, text, end.g.pos)
  {
    hide ConflictsChecked, Lexed, Cyclic, Single, Safe, RunNow, Rounds, CameBack, Ambiguity, InConflict, Covers,
      Refused, AllPresent, Timely, Inv, Path;
    NowReaches(d, c, sup, text, p, fuel);
    NowComplete(d, c, sup, text, p, fuel);
    NeverReturned(d, sup, text, p, fuel);
    var (q, first) := RunNow(d, sup, text, p, fuel);
    if first == Conflict {
      SafeSingle(d, c, text, q.g);
      SinglePath(d, c, text, q.g);
      RoundsComplete(d, c, sup, text, q, fuel, fuel);
      RoundsReaches(d, c, sup, text, q, fuel, fuel);
      var r := Rounds(d, sup, text, q, fuel, fuel);
      var live, rank, trace :| Follows(d, w, merge, c, text, r, stop, end, live, rank, trace);
      if stop.Returned? { BackCovers(d, w, merge, c, text, r.p.g, end.g, live, rank, trace); }
    }
  }

  /** Compression changes no path. */
  lemma BackCovers(d: GlrTables, w: Priorities, merge: Merger, c: Certificate, text: seq<nat>, g: Glr, g': Glr,
                   live: set<Ref>, rank: nat, trace: seq<Cells>)
    requires ConflictsChecked(d, c) && Lexed(d, text) && !Cyclic(c.g) && Safe(d, c, text, g)
    requires g.split != NULL && |g.tops| == 1 && IsLive(g, 0) && AllPresent(d, text, g)
    requires CameBack(d.lr, w, merge, c, text, g, g', live, rank, trace)
    ensures Single(d, c, text, g') && Covers(d, text, g')
  {
    hide ConflictsChecked, Lexed, Cyclic, Single, Safe, Evaluated, EndsResolved, Path, Reads, Inv, Timely,
      GlrCompress.Above;
    BackReaches(d, w, merge, c, text, g, g', live, rank, trace);
    SingleFacts(d, c, text, g');
    forall ss | Reads(d, text, g'.pos, ss)
      ensures Present(g', ss)
    {
      assert Present(g, ss);
      assert StackOf(g', 0) == ss;
    }
    PresentCovers(d, text, g');
  }

  lemma {:induction false} TurnsComplete(d: GlrTables, sup: Supply, w: Priorities, merge: Merger, c: Certificate,
                                         text: seq<nat>, fuel: nat, ps: seq<Point>, i: nat)
    requires ConflictsChecked(d, c) && Lexed(d, text) && !Cyclic(c.g) && i < |ps|
    requires Turns(d, sup, w, merge, c, text, fuel, ps) && Single(d, c, text, ps[0].g) && Covers(d, text, ps[0].g)
    ensures Single(d, c, text, ps[i].g) && Covers(d, text, ps[i].g)
    decreases i
  {
    hide ConflictsChecked, Lexed, Cyclic, Single, Turn, Covers;
    if i > 0 {
      TurnsComplete(d, sup, w, merge, c, text, fuel, ps, i - 1);
      assert Turn(d, sup, w, merge, c, text, fuel, ps[i - 1], Returned, ps[i - 1 + 1]);
      TurnComplete(d, sup, w, merge, c, text, fuel, ps[i - 1], Returned, ps[i]);
    }
  }

  lemma StartCovers(d: GlrTables, c: Certificate, text: seq<nat>, g: Glr)
    requires ConflictsChecked(d, c) && exists v :: g == Start(v)
    ensures Single(d, c, text, g) && Covers(d, text, g)
  {
    hide ConflictsChecked, Safe;
    StartSafe(d, c, text, g);
    assert IsLive(g, 0) && StackOf(g, 0) == [0];
    PresentCovers(d, text, g);
  }

  /** A syntax error is real: where the parser reports one, no path of the automaton shifts the token. */
  lemma SyntaxErrorIsReal(d: GlrTables, sup: Supply, w: Priorities, merge: Merger, c: Certificate, text: seq<nat>,
                          fuel: nat, ps: seq<Point>, end: Point)
    requires ConflictsChecked(d, c) && Lexed(d, text) && !Cyclic(c.g)
    requires ps != [] && (exists v :: ps[0].g == Start(v))
    requires Parses(d, sup, w, merge, c, text, fuel, ps, SyntaxError, end)
    ensures Refused(d, text, end.g.pos)
  {
    hide ConflictsChecked, Lexed, Cyclic, Single, Turn, Covers, Refused;
    StartCovers(d, c, text, ps[0].g);
    TurnsComplete(d, sup, w, merge, c, text, fuel, ps, |ps| - 1);
    TurnComplete(d, sup, w, merge, c, text, fuel, ps[|ps| - 1], SyntaxError, end);
  }
}
