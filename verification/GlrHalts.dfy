/** The parser comes to an end, for grammars without cycles and empty rules in which only the final state is entered on
    the end marker: from some number on the bound on the steps is never reached. */
module GlrHalts {
  import opened Grammar
  import opened LrTables
  import opened GlrForest
  import opened GlrMachine
  import opened GlrChoice
  import opened GlrTrace
  import opened GlrCyclic
  import opened GlrRun
  import opened GlrStack
  import opened GlrProcess
  import opened GlrFinal
  import opened GlrParse
  import opened GlrReach
  import opened GlrTurns
  import opened GlrWork
  import opened GlrFuel
  import opened GlrEnds
  import opened UnitSteps
  import GlrCompress

  /** The grammars and tables in question. */
  ghost predicate Halting(d: GlrTables, c: Certificate, text: seq<nat>) {
    && ConflictsChecked(d, c) && Lexed(d, text) && !Cyclic(c.g)
    && NoEmptyRules(d.lr) && d.lr.Sized() && EndsOnce(d.lr)
  }

  /** The stack of deterministic operation is in the final state. */
  predicate AtEnd(d: GlrTables, g: Glr) {
    IsLive(g, 0) && g.cells[g.tops[0]].lr == d.lr.final
  }

  /** After a round the token has been consumed; if it is the end marker, one stack is left, and that in the final
      state. */
  lemma RoundConsumes(d: GlrTables, c: Certificate, sup: Supply, text: seq<nat>, p: Point, fuel: nat)
    requires Halting(d, c, text) && Safe(d, c, text, p.g) && Calm(d.lr, p.g, NULL)
    requires (p.g.split != NULL || InConflict(d, text, p.g, 0)) && RoundOn(d, sup, text, p, fuel).Ends?
    ensures var g := RoundOn(d, sup, text, p, fuel).p.g;
      && g.tops != [] && g.pos == p.g.pos + 1
      && (TokenAt(text, p.g.pos) == EOF ==> |g.tops| == 1 && AtEnd(d, g))
  {
    hide ConflictsChecked, Lexed, Cyclic, Safe, EndsOnce, Settled, AllShift, Calm, ProcessFrom, Shifting, ShiftFirst,
      Survivors, InConflict, d.lr.Sized, Targets, NoEmptyRules;
    ProcessFromCalm(d, c, sup, text, p, 0, fuel, fuel);
    ProcessFromKeeps(d, c, sup, text, p, 0, fuel, fuel);
    var v := ProcessFrom(d, sup, text, p, 0, fuel, fuel);
    SurvivorsSettled(d, c, text, v.p.g);
    SurvivorsCalm(d.lr, v.p.g);
    var g := v.p.g.(tops := Survivors(v.p.g.tops));
    AllSettledShift(d, text, g);
    ShiftingAccounted(sup, text, g, Targets(d, text, g), 0, v.p.m);
    FirstShift(g, text, Targets(d, text, g));
    if TokenAt(text, p.g.pos) == EOF { EndShifts(d, c, text, g); }
  }

  lemma EndShifts(d: GlrTables, c: Certificate, text: seq<nat>, g: Glr)
    requires Halting(d, c, text) && Safe(d, c, text, g) && Calm(d.lr, g, NULL)
    requires AllShift(d, text, g, Targets(d, text, g))
    requires g.tops != [] && TokenAt(text, g.pos) == EOF
    ensures |g.tops| == 1 && AtEnd(d, ShiftAll(g, text, Targets(d, text, g)))
  {
    hide ConflictsChecked, Lexed, Cyclic, Safe, AllShift, ShiftFirst, d.lr.Sized, NoEmptyRules;
    OneEnds(d, c, text, g);
    ShiftedState(d, c, text, g, Targets(d, text, g), 0);
    assert ShiftsEnd(d.lr, g.cells[g.tops[0]].lr);
  }

  function Max(a: nat, b: nat): nat {
    if a < b then b else a
  }

  /** The second loop ends. */
  lemma {:induction false} RoundsEnd(d: GlrTables, c: Certificate, sup: Supply, text: seq<nat>, p: Point)
    returns (fuel: nat)
    requires Halting(d, c, text) && Safe(d, c, text, p.g) && Calm(d.lr, p.g, NULL)
    requires p.g.split != NULL || InConflict(d, text, p.g, 0)
    ensures Rounds(d, sup, text, p, fuel, fuel) != Unfinished
    decreases if p.g.pos <= |text| then |text| - p.g.pos else 0
  {
    hide ConflictsChecked, Lexed, Cyclic, Safe, EndsOnce, Calm, InConflict, RoundOn, d.lr.Sized, NoEmptyRules;
    var once := RoundEnds(d, c, sup, text, p);
    var v := RoundOn(d, sup, text, p, once);
    if v.Ends? && |v.p.g.tops| != 1 {
      RoundConsumes(d, c, sup, text, p, once);
      RoundCalm(d, c, sup, text, p, once);
      RoundKeeps(d, c, sup, text, p, once);
      var rest := RoundsEnd(d, c, sup, text, v.p);
      fuel := Max(once, rest) + 1;
      RoundsMore(d, sup, text, v.p, rest, rest, fuel - 1, fuel);
    } else {
      fuel := once + 1;
    }
    RoundMore(d, sup, text, p, once, fuel);
  }

  /** Nothing has been read beyond the end marker, unless the parser is in the final state. */
  predicate Inside(d: GlrTables, text: seq<nat>, g: Glr) {
    AtEnd(d, g) || g.pos <= |text|
  }

  /** What is left to be read. */
  function Left(d: GlrTables, text: seq<nat>, g: Glr): nat {
    if AtEnd(d, g) || g.pos > |text| then 0 else |text| - g.pos + 1
  }

  /** In deterministic operation the stack is the whole arena. */
  lemma SingleHeight(d: GlrTables, c: Certificate, text: seq<nat>, g: Glr)
    requires Single(d, c, text, g) && Lexed(d, text)
    ensures Contiguous(g.cells, |g.cells| - 1) && |g.tops| == 1 && g.tops[0] == |g.cells| - 1 && IsLive(g, 0)
    ensures |Path(g.cells, g.tops[0])| == |g.cells|
  {
    hide Forest, Marked, Path;
    SingleFacts(d, c, text, g);
    ContiguousPath(g.cells, |g.cells| - 1);
  }

  /** A reduction in deterministic operation brings the measure of the stack down. */
  lemma NowLowers(d: GlrTables, c: Certificate, text: seq<nat>, g: Glr, r: nat)
    requires Halting(d, c, text) && Single(d, c, text, g) && CanReduce(d, text, g, 0, r)
    ensures WorkAt(d.lr, c, NowReduced(d.lr, g, r), 0) < WorkAt(d.lr, c, g, 0)
  {
    hide ConflictsChecked, Lexed, Cyclic, Single, CanReduce, Inv, ReductionSound, Work, EndsOnce, RulesMatch, Checked,
      Path, Forest, NoEmptyRules, TopValues, Contiguous;
    SingleFacts(d, c, text, g);
    SafeOf(d, c, text, g);
    ReducedNow(d, c, text, g, r);
    ReducesStep(d, c, text, g, r);
    InvForest(d.lr, c, text, g);
    var t, g', cells := d.lr, NowReduced(d.lr, g, r), g.cells;
    ReduceWorks(t, c, text, cells, g.tops[0], r);
    SingleHeight(d, c, text, g);
    SingleHeight(d, c, text, g');
    var b := Climb(cells, g.tops[0], t.r2[r]);
    ContiguousPath(cells, b);
    assert g'.cells[|g'.cells| - 1].lr == Target(t, cells[b].lr, t.r1[r]);
  }

  lemma SafeOf(d: GlrTables, c: Certificate, text: seq<nat>, g: Glr)
    requires Single(d, c, text, g)
    ensures Safe(d, c, text, g) && g.split == NULL
  {
    hide Safe;
  }

  /** What a shift in deterministic operation leaves to be read. */
  lemma NowReads(d: GlrTables, c: Certificate, text: seq<nat>, g: Glr, target: nat)
    requires Halting(d, c, text) && Single(d, c, text, g) && CanShift(d, text, g, 0, target) && Inside(d, text, g)
    ensures |g.tops| == 1
    ensures var g' := NowShifted(g, target, TokenAt(text, g.pos));
      Inside(d, text, g') && Left(d, text, g') < Left(d, text, g) && g'.pos == g.pos + 1
  {
    hide ConflictsChecked, Lexed, Cyclic, Single, Inv, NoEmptyRules, d.lr.Sized, d.lr.Action;
    SingleFacts(d, c, text, g);
    var s := g.cells[g.tops[0]].lr;
    if TokenAt(text, g.pos) == EOF { assert ShiftsEnd(d.lr, s); }
  }

  /** A reduction leaves as much, or the parser in the final state. */
  lemma NowKeepsLeft(d: GlrTables, c: Certificate, text: seq<nat>, g: Glr, r: nat)
    requires Halting(d, c, text) && Single(d, c, text, g) && CanReduce(d, text, g, 0, r) && Inside(d, text, g)
    ensures var g' := NowReduced(d.lr, g, r);
      Inside(d, text, g') && Left(d, text, g') <= Left(d, text, g) && g'.pos == g.pos
  {
    hide ConflictsChecked, Lexed, Cyclic, Single, Inv, NoEmptyRules, EndsOnce, ReduceNow, ReductionSound, RulesMatch;
    SingleFacts(d, c, text, g);
    SafeOf(d, c, text, g);
    ReducedNow(d, c, text, g, r);
  }

  /** The first loop ends. */
  lemma {:induction false} NowEnds(d: GlrTables, c: Certificate, sup: Supply, text: seq<nat>, p: Point)
    returns (fuel: nat)
    requires Halting(d, c, text) && Single(d, c, text, p.g) && Inside(d, text, p.g)
    ensures RunNow(d, sup, text, p, fuel).1 != TooLong
    decreases Left(d, text, p.g), WorkAt(d.lr, c, p.g, 0), 0
  {
    hide ConflictsChecked, Lexed, Cyclic, Single, NowReduced, NowShifted, RunNow, RunOn, CanReduce, CanShift,
      InConflict, Inv, d.lr.Sized, EndsOnce, NoEmptyRules, Inside, Left, WorkAt;
    SingleFacts(d, c, text, p.g);
    var state, token := StateOf(d, p.g, 0), TokenAt(text, p.g.pos);
    fuel := 1;
    if state != d.lr.final {
      Decision(d, text, p.g, state);
      match d.lr.Action(state, token)
      case ShiftTo(target) =>
        NowReads(d, c, text, p.g, target);
        ShiftsStep(d, c, text, p.g, target);
        var rest := OnEnds(d, c, sup, text, NowShifted(p.g, target, token), p.m);
        fuel := rest + 1;
      case Fail =>
      case ReduceBy(r) =>
        NowKeepsLeft(d, c, text, p.g, r);
        NowLowers(d, c, text, p.g, r);
        ReducesStep(d, c, text, p.g, r);
        var rest := OnEnds(d, c, sup, text, NowReduced(d.lr, p.g, r), p.m);
        fuel := rest + 1;
    }
    NowStep(d, sup, text, p, fuel);
  }

  lemma {:induction false} OnEnds(d: GlrTables, c: Certificate, sup: Supply, text: seq<nat>, g: Glr, m: Memory)
    returns (fuel: nat)
    requires Halting(d, c, text) && Single(d, c, text, g) && Inside(d, text, g)
    ensures RunOn(d, sup, text, g, m, fuel).1 != TooLong
    decreases Left(d, text, g), WorkAt(d.lr, c, g, 0), 1
  {
    hide Halting, Single, RunNow, Inside, Left, WorkAt;
    ReservedAccounted(sup, g, m);
    var v := Reserved(sup, g, m);
    fuel := 0;
    if v.Ends? { fuel := NowEnds(d, c, sup, text, v.p); }
  }

  /** The first loop reads on, never beyond the end marker. */
  lemma {:induction false} NowInside(d: GlrTables, c: Certificate, sup: Supply, text: seq<nat>, p: Point, fuel: nat)
    requires Halting(d, c, text) && Single(d, c, text, p.g) && Inside(d, text, p.g)
    ensures var (q, stop) := RunNow(d, sup, text, p, fuel);
      && Inside(d, text, q.g) && Left(d, text, q.g) <= Left(d, text, p.g)
      && (stop == Conflict ==> !AtEnd(d, q.g))
    decreases fuel, 0
  {
    hide ConflictsChecked, Lexed, Cyclic, Single, NowReduced, NowShifted, RunNow, RunOn, CanReduce, CanShift,
      InConflict, Inv, d.lr.Sized, EndsOnce, NoEmptyRules, Inside, Left;
    SingleFacts(d, c, text, p.g);
    NowStep(d, sup, text, p, fuel);
    if fuel > 0 && StateOf(d, p.g, 0) != d.lr.final {
      Decision(d, text, p.g, StateOf(d, p.g, 0));
      match d.lr.Action(StateOf(d, p.g, 0), TokenAt(text, p.g.pos))
      case ShiftTo(target) =>
        NowReads(d, c, text, p.g, target);
        ShiftsStep(d, c, text, p.g, target);
        OnInside(d, c, sup, text, NowShifted(p.g, target, TokenAt(text, p.g.pos)), p.m, fuel - 1);
      case Fail =>
      case ReduceBy(r) =>
        NowKeepsLeft(d, c, text, p.g, r);
        ReducesStep(d, c, text, p.g, r);
        OnInside(d, c, sup, text, NowReduced(d.lr, p.g, r), p.m, fuel - 1);
    }
  }

  lemma {:induction false} OnInside(d: GlrTables, c: Certificate, sup: Supply, text: seq<nat>, g: Glr, m: Memory,
                                    fuel: nat)
    requires Halting(d, c, text) && Single(d, c, text, g) && Inside(d, text, g)
    ensures var (q, stop) := RunOn(d, sup, text, g, m, fuel);
      && Inside(d, text, q.g) && Left(d, text, q.g) <= Left(d, text, g)
      && (stop == Conflict ==> !AtEnd(d, q.g))
    decreases fuel, 1
  {
    hide Halting, Single, RunNow, Inside, Left;
    ReservedAccounted(sup, g, m);
    var v := Reserved(sup, g, m);
    if v.Ends? { NowInside(d, c, sup, text, v.p, fuel); }
  }

  /** So does the second, which reads a token at least. */
  lemma {:induction false} RoundsRead(d: GlrTables, c: Certificate, sup: Supply, text: seq<nat>, p: Point, rounds: nat,
                                      fuel: nat)
    requires Halting(d, c, text) && Safe(d, c, text, p.g) && Calm(d.lr, p.g, NULL) && p.g.pos <= |text|
    requires (p.g.split != NULL || InConflict(d, text, p.g, 0)) && Rounds(d, sup, text, p, rounds, fuel).Ends?
    ensures var g := Rounds(d, sup, text, p, rounds, fuel).p.g; AtEnd(d, g) || p.g.pos < g.pos <= |text|
    decreases rounds
  {
    hide ConflictsChecked, Lexed, Cyclic, Safe, EndsOnce, Calm, InConflict, RoundOn, d.lr.Sized, NoEmptyRules;
    RoundConsumes(d, c, sup, text, p, fuel);
    var v := RoundOn(d, sup, text, p, fuel);
    if |v.p.g.tops| != 1 {
      RoundCalm(d, c, sup, text, p, fuel);
      RoundKeeps(d, c, sup, text, p, fuel);
      RoundsRead(d, c, sup, text, v.p, rounds - 1, fuel);
    }
  }

  /** The way back changes neither the position nor the state on top. */
  lemma BackSame(d: GlrTables, w: Priorities, merge: Merger, c: Certificate, text: seq<nat>, g: Glr, g': Glr,
                 live: set<Ref>, rank: nat, trace: seq<Cells>)
    requires ConflictsChecked(d, c) && Lexed(d, text) && !Cyclic(c.g) && Safe(d, c, text, g)
    requires g.split != NULL && |g.tops| == 1 && IsLive(g, 0)
    requires CameBack(d.lr, w, merge, c, text, g, g', live, rank, trace)
    ensures g'.pos == g.pos && AtEnd(d, g') == AtEnd(d, g)
  {
    hide ConflictsChecked, Lexed, Cyclic, Safe, Evaluated, EndsResolved, Inv, Path;
    BackReaches(d, w, merge, c, text, g, g', live, rank, trace);
    SingleFacts(d, c, text, g');
    SafeFacts(d, c, text, g, 0);
    TopOfPath(d.lr, c, text, g.cells, g.tops[0]) by { InvForest(d.lr, c, text, g); }
    TopOfPath(d.lr, c, text, g'.cells, g'.tops[0]) by { InvForest(d.lr, c, text, g'); }
  }

  lemma TopOfPath(t: Tables, c: Certificate, text: seq<nat>, cells: Cells, i: Ref)
    requires Forest(t, c, text, cells) && IsState(cells, i)
    ensures Path(cells, i) != [] && Path(cells, i)[|Path(cells, i)| - 1] == cells[i].lr
  {
  }

  lemma ConflictInside(d: GlrTables, c: Certificate, sup: Supply, text: seq<nat>, p: Point, fuel: nat)
    requires Halting(d, c, text) && Single(d, c, text, p.g) && Inside(d, text, p.g)
    requires RunNow(d, sup, text, p, fuel).1 == Conflict
    ensures var g := RunNow(d, sup, text, p, fuel).0.g;
      && Safe(d, c, text, g) && InConflict(d, text, g, 0) && Calm(d.lr, g, NULL) && g.pos <= |text|
      && 0 < Left(d, text, g) <= Left(d, text, p.g)
  {
    hide ConflictsChecked, Lexed, Cyclic, Safe, InConflict, RunNow, d.lr.Sized, EndsOnce, NoEmptyRules;
    NowReaches(d, c, sup, text, p, fuel);
    NowInside(d, c, sup, text, p, fuel);
    var g := RunNow(d, sup, text, p, fuel).0.g;
    SingleFacts(d, c, text, g);
    OneCalm(d.lr, g);
  }

  lemma OneCalm(t: Tables, g: Glr)
    requires |g.tops| == 1 && IsLive(g, 0) && g.cells[g.tops[0]].lr != t.final
    ensures Calm(t, g, NULL)
  {
  }

  /** A turn that goes on has read something, and not beyond the end marker. */
  lemma TurnReads(d: GlrTables, sup: Supply, w: Priorities, merge: Merger, c: Certificate, text: seq<nat>, fuel: nat,
                  p: Point, end: Point)
    requires Halting(d, c, text) && Single(d, c, text, p.g) && Inside(d, text, p.g)
    requires Turn(d, sup, w, merge, c, text, fuel, p, Returned, end)
    ensures Single(d, c, text, end.g) && Inside(d, text, end.g) && Left(d, text, end.g) < Left(d, text, p.g)
  {
    hide ConflictsChecked, Lexed, Cyclic, Safe, InConflict, RunNow, Rounds, CameBack, Ambiguity, Calm, d.lr.Sized,
      EndsOnce, NoEmptyRules, Single;
    TurnReaches(d, sup, w, merge, c, text, fuel, p, Returned, end);
    NeverReturned(d, sup, text, p, fuel);
    var (q, first) := RunNow(d, sup, text, p, fuel);
    ConflictInside(d, c, sup, text, p, fuel);
    var r := Rounds(d, sup, text, q, fuel, fuel);
    var live, rank, trace :| Follows(d, w, merge, c, text, r, Returned, end, live, rank, trace);
    RoundsRead(d, c, sup, text, q, fuel, fuel);
    RoundsReaches(d, c, sup, text, q, fuel, fuel);
    BackSame(d, w, merge, c, text, r.p.g, end.g, live, rank, trace);
  }

  /** From some number on the bound on the steps does not matter to a turn, and is not reached in it. */
  lemma TurnEnds(d: GlrTables, sup: Supply, w: Priorities, merge: Merger, c: Certificate, text: seq<nat>, p: Point)
    returns (enough: nat)
    requires Halting(d, c, text) && Single(d, c, text, p.g) && Inside(d, text, p.g)
    ensures forall fuel: nat, stop, end | enough <= fuel && Turn(d, sup, w, merge, c, text, fuel, p, stop, end) ::
      stop != TooLong && Turn(d, sup, w, merge, c, text, enough, p, stop, end)
  {
    hide ConflictsChecked, Lexed, Cyclic, Safe, InConflict, RunNow, Rounds, CameBack, Ambiguity, Calm, d.lr.Sized,
      EndsOnce, NoEmptyRules, Single, Inside, Left;
    var once := NowEnds(d, c, sup, text, p);
    var (q, first) := RunNow(d, sup, text, p, once);
    enough := once;
    if first == Conflict {
      ConflictInside(d, c, sup, text, p, once);
      var more := RoundsEnd(d, c, sup, text, q);
      enough := Max(once, more);
      RoundsMore(d, sup, text, q, more, more, enough, enough);
    }
    RunNowMore(d, sup, text, p, once, enough);
    forall fuel: nat, stop, end | enough <= fuel && Turn(d, sup, w, merge, c, text, fuel, p, stop, end)
      ensures stop != TooLong && Turn(d, sup, w, merge, c, text, enough, p, stop, end)
    {
      RunNowMore(d, sup, text, p, once, fuel);
      if first == Conflict { RoundsMore(d, sup, text, q, enough, enough, fuel, fuel); }
    }
  }

  /** The points at which the outer loop is entered are no more than there are tokens left, and no turn ends for want
      of steps. */
  ghost predicate Halts(d: GlrTables, sup: Supply, w: Priorities, merge: Merger, c: Certificate, text: seq<nat>,
                        p: Point, fuel: nat, ps: seq<Point>)
    requires ps != []
  {
    && |ps| <= Left(d, text, p.g) + 1
    && var last := ps[|ps| - 1];
      forall end :: !Turn(d, sup, w, merge, c, text, fuel, last, TooLong, end)
  }

  lemma TurnsSplit(d: GlrTables, sup: Supply, w: Priorities, merge: Merger, c: Certificate, text: seq<nat>, fuel: nat,
                   ps: seq<Point>)
    requires Turns(d, sup, w, merge, c, text, fuel, ps) && |ps| > 1
    ensures Turn(d, sup, w, merge, c, text, fuel, ps[0], Returned, ps[1])
    ensures Turns(d, sup, w, merge, c, text, fuel, ps[1..])
  {
    hide Turn;
    assert Turn(d, sup, w, merge, c, text, fuel, ps[0], Returned, ps[0 + 1]);
    forall i: nat | i + 1 < |ps[1..]|
      ensures Turn(d, sup, w, merge, c, text, fuel, ps[1..][i], Returned, ps[1..][i + 1])
    {
      assert Turn(d, sup, w, merge, c, text, fuel, ps[i + 1], Returned, ps[i + 1 + 1]);
    }
  }

  lemma {:induction false} TurnsHalt(d: GlrTables, sup: Supply, w: Priorities, merge: Merger, c: Certificate,
                                     text: seq<nat>, p: Point)
    returns (enough: nat)
    requires Halting(d, c, text) && Single(d, c, text, p.g) && Inside(d, text, p.g)
    ensures forall fuel: nat, ps: seq<Point>
      | enough <= fuel && Turns(d, sup, w, merge, c, text, fuel, ps) && ps[0] == p ::
      Halts(d, sup, w, merge, c, text, p, fuel, ps)
    decreases Left(d, text, p.g)
  {
    hide Halting, Single, Inside, Left, Turn;
    var once := TurnEnds(d, sup, w, merge, c, text, p);
    enough := once;
    ghost var rest: nat := 0;
    ghost var next := p;
    ghost var goesOn := exists end :: Turn(d, sup, w, merge, c, text, once, p, Returned, end);
    if goesOn {
      next :| Turn(d, sup, w, merge, c, text, once, p, Returned, next);
      TurnReads(d, sup, w, merge, c, text, once, p, next);
      rest := TurnsHalt(d, sup, w, merge, c, text, next);
      enough := Max(enough, rest);
    }
    forall fuel: nat, ps: seq<Point> | enough <= fuel && Turns(d, sup, w, merge, c, text, fuel, ps) && ps[0] == p
      ensures Halts(d, sup, w, merge, c, text, p, fuel, ps)
    {
      if |ps| > 1 {
        TurnsSplit(d, sup, w, merge, c, text, fuel, ps);
        assert Turn(d, sup, w, merge, c, text, once, p, Returned, ps[1]);
        TurnOnce(d, sup, w, merge, c, text, once, p, Returned, next, Returned, ps[1]);
        assert Halts(d, sup, w, merge, c, text, next, fuel, ps[1..]);
      }
    }
  }

  /** The parser comes to an end: from some number on the bound on the steps is not reached in any parse from the empty
      stack. */
  lemma ParseHalts(d: GlrTables, sup: Supply, w: Priorities, merge: Merger, c: Certificate, text: seq<nat>, p: Point)
    returns (enough: nat)
    requires Halting(d, c, text) && exists v :: p.g == Start(v)
    ensures forall fuel: nat, ps: seq<Point>, stop, end | enough <= fuel && ps != [] && ps[0] == p ::
      Parses(d, sup, w, merge, c, text, fuel, ps, stop, end) ==> stop != TooLong && |ps| <= |text| + 2
  {
    hide ConflictsChecked, Lexed, Cyclic, Safe, d.lr.Sized, EndsOnce, NoEmptyRules, Turn, Turns;
    StartSafe(d, c, text, p.g);
    var most := TurnsHalt(d, sup, w, merge, c, text, p);
    enough := Max(most, |text| + 2);
    forall fuel: nat, ps: seq<Point>, stop, end
      | enough <= fuel && ps != [] && ps[0] == p && Parses(d, sup, w, merge, c, text, fuel, ps, stop, end)
      ensures stop != TooLong && |ps| <= |text| + 2
    {
      assert Halts(d, sup, w, merge, c, text, p, fuel, ps);
    }
  }
}
