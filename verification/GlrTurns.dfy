/** All of `yyparse`, up to the first syntax error, is a run from the empty stack. */
module GlrTurns {
  import opened Grammar
  import opened LrTables
  import opened GlrForest
  import opened GlrMachine
  import opened GlrLoose
  import opened GlrChoice
  import opened GlrTrace
  import opened GlrCyclic
  import opened GlrRun
  import opened GlrStack
  import opened GlrProcess
  import opened GlrReach
  import opened GlrParse
  import opened UnitSteps
  import GlrReturn
  import GlrCompress
  import Eval = GlrEvaluate

  /** Deterministic operation on values: the invariant, and no split point. */
  ghost predicate Single(d: GlrTables, c: Certificate, text: seq<nat>, g: Glr) {
    Safe(d, c, text, g) && g.split == NULL
  }

  lemma SingleFacts(d: GlrTables, c: Certificate, text: seq<nat>, g: Glr)
    requires Single(d, c, text, g) && Lexed(d, text)
    ensures Inv(d.lr, c, text, g) && |g.tops| == 1 && g.tops[0] == |g.cells| - 1 && IsLive(g, 0) && d.lr.Sized()
    ensures g.cells[g.tops[0]].lr == StateOf(d, g, 0) < d.lr.NStates()
  {
    hide Forest, Marked, Checked;
    SafeFacts(d, c, text, g, 0);
    LiveTop(d, c, text, g);
    ForestChecked(d.lr, c, text, g.cells);
  }

  lemma ReducesStep(d: GlrTables, c: Certificate, text: seq<nat>, g: Glr, r: nat)
    requires ConflictsChecked(d, c) && Lexed(d, text) && !Cyclic(c.g) && Single(d, c, text, g)
    requires CanReduce(d, text, g, 0, r)
    ensures Leads(d, c, text, g, NowReduced(d.lr, g, r)) && Single(d, c, text, NowReduced(d.lr, g, r))
  {
    hide ConflictsChecked, Lexed, Cyclic, Safe, CanReduce, ReduceNow, Leads, Inv, ReductionSound;
    SingleFacts(d, c, text, g);
    ReducedNow(d, c, text, g, r);
    assert ReducesBy(d, g, NowReduced(d.lr, g, r), r);
    LeadsStep(d, c, text, g, NowReduced(d.lr, g, r));
  }

  lemma ShiftsStep(d: GlrTables, c: Certificate, text: seq<nat>, g: Glr, target: nat)
    requires ConflictsChecked(d, c) && Lexed(d, text) && !Cyclic(c.g) && Single(d, c, text, g)
    requires CanShift(d, text, g, 0, target)
    ensures |g.tops| == 1
    ensures var g' := NowShifted(g, target, TokenAt(text, g.pos)); Leads(d, c, text, g, g') && Single(d, c, text, g')
  {
    hide ConflictsChecked, Lexed, Cyclic, Safe, CanShift, Leads, Inv;
    SingleFacts(d, c, text, g);
    ShiftedNow(d, c, text, g, target);
    var g' := NowShifted(g, target, TokenAt(text, g.pos));
    assert ShiftFirst(g, text, [target], 0) == g;
    assert g' == ShiftAll(g, text, [target]);
    assert AllShift(d, text, g, [target]);
    LeadsStep(d, c, text, g, g');
  }

  /** The first loop of `yyparse`. */
  lemma {:induction false} NowReaches(d: GlrTables, c: Certificate, sup: Supply, text: seq<nat>, p: Point, fuel: nat)
    requires ConflictsChecked(d, c) && Lexed(d, text) && !Cyclic(c.g) && Single(d, c, text, p.g)
    ensures var (q, stop) := RunNow(d, sup, text, p, fuel);
      && Leads(d, c, text, p.g, q.g) && Single(d, c, text, q.g) && (stop.Conflict? ==> InConflict(d, text, q.g, 0))
    decreases fuel, 0
  {
    hide ConflictsChecked, Lexed, Cyclic, Single, NowReduced, NowShifted, Leads, RunNow, RunOn, CanReduce, CanShift,
      InConflict, Inv, d.lr.Sized;
    SingleFacts(d, c, text, p.g);
    LeadsSelf(d, c, text, p.g);
    NowStep(d, sup, text, p, fuel);
    Decision(d, text, p.g, StateOf(d, p.g, 0));
    if fuel > 0 && StateOf(d, p.g, 0) != d.lr.final {
      match d.lr.Action(StateOf(d, p.g, 0), TokenAt(text, p.g.pos))
      case ShiftTo(target) =>
        ShiftsStep(d, c, text, p.g, target);
        OnReaches(d, c, sup, text, p.g, NowShifted(p.g, target, TokenAt(text, p.g.pos)), p.m, fuel - 1);
      case Fail =>
      case ReduceBy(r) =>
        ReducesStep(d, c, text, p.g, r);
        OnReaches(d, c, sup, text, p.g, NowReduced(d.lr, p.g, r), p.m, fuel - 1);
    }
  }

  lemma {:induction false} OnReaches(d: GlrTables, c: Certificate, sup: Supply, text: seq<nat>, g: Glr, g': Glr,
                                     m: Memory, fuel: nat)
    requires ConflictsChecked(d, c) && Lexed(d, text) && !Cyclic(c.g) && Single(d, c, text, g')
    requires Leads(d, c, text, g, g')
    ensures var (q, stop) := RunOn(d, sup, text, g', m, fuel);
      && Leads(d, c, text, g, q.g) && Single(d, c, text, q.g) && (stop.Conflict? ==> InConflict(d, text, q.g, 0))
    decreases fuel, 1
  {
    hide ConflictsChecked, Lexed, Cyclic, Single, Leads, RunNow, InConflict;
    ReservedAccounted(sup, g', m);
    var v := Reserved(sup, g', m);
    if v.Ends? {
      NowReaches(d, c, sup, text, v.p, fuel);
      LeadsOn(d, c, text, g, g', RunNow(d, sup, text, v.p, fuel).0.g);
    }
  }

  /** The second loop of `yyparse`. */
  lemma {:induction false} RoundsReaches(d: GlrTables, c: Certificate, sup: Supply, text: seq<nat>, p: Point,
                                         rounds: nat, fuel: nat)
    requires ConflictsChecked(d, c) && Lexed(d, text) && !Cyclic(c.g) && Safe(d, c, text, p.g)
    requires p.g.split != NULL || InConflict(d, text, p.g, 0)
    ensures var r := Rounds(d, sup, text, p, rounds, fuel);
      && Comes(d, c, text, p.g, r)
      && (r.Ends? ==> Safe(d, c, text, r.p.g) && r.p.g.split != NULL && |r.p.g.tops| == 1 && IsLive(r.p.g, 0))
    decreases rounds
  {
    hide ConflictsChecked, Lexed, Cyclic, Safe, InConflict, RoundOn, Comes;
    if rounds == 0 {
      Unfinishes(d, c, text, p.g);
    } else {
      RoundReaches(d, c, sup, text, p, fuel);
      var v := RoundOn(d, sup, text, p, fuel);
      if v.Ends? {
        RoundKeeps(d, c, sup, text, p, fuel);
        if |v.p.g.tops| != 1 {
          RoundsReaches(d, c, sup, text, v.p, rounds - 1, fuel);
          ComesThere(d, c, text, p.g, v.p.g, v);
          ComesOn(d, c, text, p.g, v.p.g, Rounds(d, sup, text, v.p, rounds - 1, fuel));
        }
      }
    }
  }

  lemma Unfinishes(d: GlrTables, c: Certificate, text: seq<nat>, g: Glr)
    ensures Comes(d, c, text, g, Unfinished)
  {
  }

  lemma ComesThere(d: GlrTables, c: Certificate, text: seq<nat>, g: Glr, g': Glr, r: Result)
    requires Comes(d, c, text, g, r) && r.Ends? && r.p.g == g'
    ensures Leads(d, c, text, g, g')
  {
    hide Leads;
  }

  /** The way back is an operation. */
  lemma BackReaches(d: GlrTables, w: Priorities, merge: Merger, c: Certificate, text: seq<nat>, g: Glr, g': Glr,
                    live: set<Ref>, rank: nat, trace: seq<Cells>)
    requires ConflictsChecked(d, c) && Lexed(d, text) && !Cyclic(c.g) && Safe(d, c, text, g)
    requires g.split != NULL && |g.tops| == 1 && IsLive(g, 0)
    requires CameBack(d.lr, w, merge, c, text, g, g', live, rank, trace)
    ensures Leads(d, c, text, g, g') && Single(d, c, text, g')
  {
    hide ConflictsChecked, Lexed, Cyclic, Safe, Evaluated, GlrReturn.Resolution, Path, Leads, Inv, Checked, RulesMatch;
    assert Returns(d, c, text, g, g');
    LeadsStep(d, c, text, g, g');
    NextKeeps(d, c, text, g, g');
    SafeFacts(d, c, text, g, 0);
    GlrReturn.ReturnKeeps(d.lr, c, text, g, Reached(trace));
  }

  /** The way back leads to one configuration only, and is not open where the values are ambiguous. */
  lemma BackOnce(t: Tables, w: Priorities, merge: Merger, c: Certificate, text: seq<nat>, g: Glr, g': Glr,
                 live: set<Ref>, rank: nat, trace: seq<Cells>, g'': Glr, live': set<Ref>, rank': nat,
                 trace': seq<Cells>)
    requires CameBack(t, w, merge, c, text, g, g', live, rank, trace)
    ensures CameBack(t, w, merge, c, text, g, g'', live', rank', trace') ==> g' == g''
    ensures !Ambiguity(t, w, merge, c, text, g, live', rank', trace')
  {
    hide Loose, Resolves, Clashing, GlrReturn.StackStuck, GlrReturn.StackYields, GlrReturn.Resolution, Path,
      GlrCompress.Compress;
    if CameBack(t, w, merge, c, text, g, g'', live', rank', trace') {
      GlrReturn.YieldsOne(t, w, merge, g, Eval.Known(Reached(trace)), Eval.Known(Reached(trace')));
    }
    if Ambiguity(t, w, merge, c, text, g, live', rank', trace') {
      var cells :| GlrReturn.StackYields(t, w, merge, g, Eval.NoChoice(cells));
      GlrReturn.YieldsOne(t, w, merge, g, Eval.Known(Reached(trace)), Eval.NoChoice(cells));
    }
  }

  /** A turn has one outcome: how it stops, and with which configuration and memory unless it is given up. */
  lemma TurnOnce(d: GlrTables, sup: Supply, w: Priorities, merge: Merger, c: Certificate, text: seq<nat>, fuel: nat,
                 p: Point, stop: Stop, end: Point, stop': Stop, end': Point)
    requires Turn(d, sup, w, merge, c, text, fuel, p, stop, end)
    requires Turn(d, sup, w, merge, c, text, fuel, p, stop', end')
    ensures stop == stop'
    ensures stop.Returned? || stop.Accepted? || stop.SyntaxError? || stop.NoMemory? ==> end == end'
  {
    hide RunNow, Rounds, CameBack, Ambiguity;
    var (q, first) := RunNow(d, sup, text, p, fuel);
    if first == Conflict {
      var r := Rounds(d, sup, text, q, fuel, fuel);
      var live, rank, trace :| Follows(d, w, merge, c, text, r, stop, end, live, rank, trace);
      var live', rank', trace' :| Follows(d, w, merge, c, text, r, stop', end', live', rank', trace');
      if r.Ends? {
        if stop == Returned {
          BackOnce(d.lr, w, merge, c, text, r.p.g, end.g, live, rank, trace, end'.g, live', rank', trace');
        } else if stop' == Returned {
          BackOnce(d.lr, w, merge, c, text, r.p.g, end'.g, live', rank', trace', end.g, live, rank, trace);
        }
      }
    }
  }

  /** One turn of the outer loop: what it stops with is reached by operations of the GLR parser, and if it goes
      on, it is in deterministic operation. */
  lemma TurnReaches(d: GlrTables, sup: Supply, w: Priorities, merge: Merger, c: Certificate, text: seq<nat>, fuel: nat,
                    p: Point, stop: Stop, end: Point)
    requires ConflictsChecked(d, c) && Lexed(d, text) && !Cyclic(c.g) && Single(d, c, text, p.g)
    requires Turn(d, sup, w, merge, c, text, fuel, p, stop, end)
    ensures stop.Returned? ==> Leads(d, c, text, p.g, end.g) && Single(d, c, text, end.g)
    ensures stop.Accepted? || stop.SyntaxError? ==> Leads(d, c, text, p.g, end.g)
    ensures stop.NoMemory? ==> Comes(d, c, text, p.g, NoRoom(end))
    ensures stop.Ambiguous? ==>
      exists q, live, rank, trace ::
        Leads(d, c, text, p.g, q) && Ambiguity(d.lr, w, merge, c, text, q, live, rank, trace)
  {
    hide ConflictsChecked, Lexed, Cyclic, Safe, RunNow, Rounds, CameBack, Ambiguity, Leads, Halfway, InConflict;
    NowReaches(d, c, sup, text, p, fuel);
    NeverReturned(d, sup, text, p, fuel);
    var (q, first) := RunNow(d, sup, text, p, fuel);
    if first == Conflict {
      var live, rank, trace :|
        Follows(d, w, merge, c, text, Rounds(d, sup, text, q, fuel, fuel), stop, end, live, rank, trace);
      RoundsReaches(d, c, sup, text, q, fuel, fuel);
      var r := Rounds(d, sup, text, q, fuel, fuel);
      ComesOn(d, c, text, p.g, q.g, r);
      if stop.Ambiguous? {
        ComesThere(d, c, text, p.g, r.p.g, r);
        assert Leads(d, c, text, p.g, r.p.g) && Ambiguity(d.lr, w, merge, c, text, r.p.g, live, rank, trace);
      }
      if stop.Returned? {
        BackReaches(d, w, merge, c, text, r.p.g, end.g, live, rank, trace);
        LeadsOn(d, c, text, p.g, r.p.g, end.g);
      }
    }
  }

  /** The points at which the outer loop is entered are reached by runs from the empty stack. */
  lemma {:induction false} TurnsRun(d: GlrTables, sup: Supply, w: Priorities, merge: Merger, c: Certificate,
                                    text: seq<nat>, fuel: nat, ps: seq<Point>, i: nat)
    requires ConflictsChecked(d, c) && Lexed(d, text) && !Cyclic(c.g) && Turns(d, sup, w, merge, c, text, fuel, ps)
    requires i < |ps|
    requires exists v :: ps[0].g == Start(v)
    ensures Leads(d, c, text, ps[0].g, ps[i].g) && Single(d, c, text, ps[i].g)
    decreases i
  {
    hide ConflictsChecked, Lexed, Cyclic, Safe, Turn, Leads;
    if i == 0 {
      LeadsSelf(d, c, text, ps[0].g);
      StartSafe(d, c, text, ps[0].g);
    } else {
      TurnsRun(d, sup, w, merge, c, text, fuel, ps, i - 1);
      assert Turn(d, sup, w, merge, c, text, fuel, ps[i - 1], Returned, ps[i - 1 + 1]);
      TurnReaches(d, sup, w, merge, c, text, fuel, ps[i - 1], Returned, ps[i]);
      LeadsOn(d, c, text, ps[0].g, ps[i - 1].g, ps[i].g);
    }
  }

  /** A parse that is accepted, or that stops at a syntax error, is a run of the GLR parser from the empty stack. */
  lemma ParseIsRun(d: GlrTables, sup: Supply, w: Priorities, merge: Merger, c: Certificate, text: seq<nat>, fuel: nat,
                   ps: seq<Point>, stop: Stop, end: Point)
    returns (gs: seq<Glr>)
    requires ConflictsChecked(d, c) && Lexed(d, text) && !Cyclic(c.g) && Turns(d, sup, w, merge, c, text, fuel, ps)
    requires (exists v :: ps[0].g == Start(v)) && Turn(d, sup, w, merge, c, text, fuel, ps[|ps| - 1], stop, end)
    requires stop.Accepted? || stop.SyntaxError?
    ensures GlrRun.Run(d, c, text, gs) && gs[0] == ps[0].g && gs[|gs| - 1] == end.g
  {
    hide ConflictsChecked, Lexed, Cyclic, Safe, Turn, Next, GlrRun.Run;
    TurnsRun(d, sup, w, merge, c, text, fuel, ps, |ps| - 1);
    TurnReaches(d, sup, w, merge, c, text, fuel, ps[|ps| - 1], stop, end);
    LeadsOn(d, c, text, ps[0].g, ps[|ps| - 1].g, end.g);
    gs :| Operations(d, c, text, gs) && gs[0] == ps[0].g && gs[|gs| - 1] == end.g;
    OperationsRun(d, c, text, gs);
  }
}
