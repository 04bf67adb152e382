/** The loop of the GLR `yyparse`, up to the first syntax error: deterministic operation on the arena, rounds
    of the nondeterministic loop while there are several stacks, and the way back. */
module GlrParse {
  import opened Grammar
  import opened LrTables
  import opened GlrForest
  import opened GlrMachine
  import opened GlrLoose
  import opened GlrChoice
  import opened GlrTrace
  import opened GlrValues
  import opened GlrCyclic
  import opened GlrRun
  import opened GlrStack
  import opened GlrProcess
  import opened GlrFinal
  import opened UnitSteps
  import opened GlrCompress
  import GlrReturn
  import Eval = GlrEvaluate
  import Arena = GlrStack

  /** How a part of the parse ends. `Conflict` is the end of deterministic operation; `TooLong` is a bound on
      the number of steps. */
  datatype Stop = Accepted | Conflict | Returned | SyntaxError | Ambiguous | NoMemory | TooLong | AssertionFails

  /** The parser is in deterministic operation, and its arena in working order. */
  ghost predicate Linear(d: GlrTables, c: Certificate, text: seq<nat>, s: GlrStack)
    reads s, s.items
  {
    Working(d, c, text, s) && s.splitPoint == 0
  }

  lemma LinearFacts(d: GlrTables, c: Certificate, text: seq<nat>, s: GlrStack)
    requires Linear(d, c, text, s) && Lexed(d, text)
    ensures s.nextFree <= s.items.Length
    ensures var g := s.Abs();
      && Inv(d.lr, c, text, g) && g.split == NULL && g.pos == s.posn && |g.tops| == 1 && |s.tops| == 1
      && g.tops[0] == s.nextFree - 1
      && |g.cells| == s.nextFree > 0 && IsLive(g, 0)
      && g.cells[s.nextFree - 1] == CellOf(s.base, s.items[s.nextFree - 1])
      && s.items[s.nextFree - 1].State? && s.items[s.nextFree - 1].lr < d.lr.NStates()
      && d.lr.Sized() && s.tops[0] == s.base + s.nextFree - 1
    ensures TokenAt(text, s.posn) < d.lr.nTokens
  {
    hide Forest, Checked, Marked;
    var g := s.Abs();
    SafeFacts(d, c, text, g, 0);
    LiveTop(d, c, text, g);
    ForestChecked(d.lr, c, text, g.cells);
    TokenLexed(d, text, s.posn);
    assert IsState(g.cells, |g.cells| - 1);
    s.StateAt(s.tops[0]);
  }

  /** A reduction in deterministic operation keeps everything in order, up to the reservation of space. */
  lemma ReducedNow(d: GlrTables, c: Certificate, text: seq<nat>, g: Glr, r: nat)
    requires ConflictsChecked(d, c) && Lexed(d, text) && !Cyclic(c.g)
    requires Safe(d, c, text, g) && Inv(d.lr, c, text, g) && g.split == NULL && |g.tops| == 1
    requires g.tops[0] == |g.cells| - 1 && CanReduce(d, text, g, 0, r)
    ensures d.lr.Sized() && d.lr.IsRule(r) && d.lr.r2[r] < |g.cells|
    ensures var b := g.cells[|g.cells| - 1 - d.lr.r2[r]]; b.StateCell? && b.lr < d.lr.NStates()
    ensures var g' := ReduceNow(d.lr, g, r); Safe(d, c, text, g') && g'.split == NULL && g'.pos == g.pos
    ensures RulesMatch(d.lr, c) && g.cells[|g.cells| - 1].lr < d.lr.NStates()
    ensures ReductionSound(d.lr, c, g.cells[|g.cells| - 1].lr, r)
  {
    hide Inv, Safe, Checked, ReductionSound, Cyclic, Lexed, ConflictsChecked;
    ReduceSound(d, c, text, g, 0, r);
    NowFacts(d.lr, c, text, g, r);
    assert ReducesBy(d, g, ReduceNow(d.lr, g, r), r);
    assert Next(d, c, text, g, ReduceNow(d.lr, g, r));
    NextKeeps(d, c, text, g, ReduceNow(d.lr, g, r));
  }

  function NowReduced(t: Tables, g: Glr, r: nat): Glr {
    if t.Sized() && t.IsRule(r) && t.r2[r] < |g.cells| && |g.tops| == 1 &&
       (var b := g.cells[|g.cells| - 1 - t.r2[r]]; b.StateCell? && b.lr < t.NStates()) then ReduceNow(t, g, r)
    else g
  }

  /** `yyglrReduce` in deterministic operation, with the reservation of space at its end. */
  method GlrReduceNow(s: GlrStack, heap: Heap, d: GlrTables, r: nat, ghost c: Certificate, ghost text: seq<nat>)
    returns (ok: bool)
    requires ConflictsChecked(d, c) && Lexed(d, text) && !Cyclic(c.g)
    requires Linear(d, c, text, s) && CanReduce(d, text, s.Abs(), 0, r)
    modifies s, s.items, heap
    ensures s.items == old(s.items) || fresh(s.items)
    ensures s.Shape() && s.posn == old(s.posn) && s.Abs() == NowReduced(d.lr, old(s.Abs()), r)
    ensures Reserved(Sup(s, heap), s.Abs(), old(Here(s, heap)).m) ==
      if ok then Ends(Here(s, heap)) else NoRoom(Here(s, heap))
    ensures ok ==> Linear(d, c, text, s)
  {
    hide ConflictsChecked, Lexed, Cyclic, Safe, CanReduce, CellsOf, RefsOf, Checked, Inv, ItemPoints, ReductionSound,
      ReduceNow;
    ghost var g := s.Abs();
    LinearFacts(d, c, text, s);
    ReducedNow(d, c, text, g, r);
    s.ReduceAtOnce(d.lr, c, text, r);
    SafeFacts(d, c, text, s.Abs(), 0);
    ok := s.Reserve(heap);
  }

  lemma ShiftedNow(d: GlrTables, c: Certificate, text: seq<nat>, g: Glr, target: nat)
    requires ConflictsChecked(d, c) && Lexed(d, text) && Safe(d, c, text, g) && |g.tops| == 1
    requires CanShift(d, text, g, 0, target)
    ensures var g' := ShiftToken(g, 0, target, g.pos + 1, TokenAt(text, g.pos)).(pos := g.pos + 1);
      Safe(d, c, text, g') && g'.split == g.split
  {
    hide Safe, ConflictsChecked, Lexed, CanShift;
    assert AllShift(d, text, g, [target]);
    ShiftAllKeeps(d, c, text, g, [target]);
    assert ShiftFirst(g, text, [target], 0) == g;
    assert ShiftFirst(g, text, [target], 1) == ShiftToken(g, 0, target, g.pos + 1, TokenAt(text, g.pos));
  }

  /** The shift in deterministic operation. */
  method GlrShiftNow(s: GlrStack, heap: Heap, d: GlrTables, target: nat, token: nat, ghost c: Certificate,
                     ghost text: seq<nat>)
    returns (ok: bool)
    requires ConflictsChecked(d, c) && Lexed(d, text)
    requires Linear(d, c, text, s) && CanShift(d, text, s.Abs(), 0, target) && token == TokenAt(text, s.posn)
    modifies s, s.items, heap
    ensures s.items == old(s.items) || fresh(s.items)
    ensures s.Shape() && s.posn == old(s.posn) + 1
    ensures |old(s.Abs()).tops| == 1 && s.Abs() == NowShifted(old(s.Abs()), target, token)
    ensures Reserved(Sup(s, heap), s.Abs(), old(Here(s, heap)).m) ==
      if ok then Ends(Here(s, heap)) else NoRoom(Here(s, heap))
    ensures ok ==> Linear(d, c, text, s)
  {
    hide ConflictsChecked, Lexed, Safe, CellsOf, RefsOf, Checked, Inv, ItemPoints, CanShift;
    ghost var g := s.Abs();
    LinearFacts(d, c, text, s);
    ShiftedNow(d, c, text, g, target);
    s.posn := s.posn + 1;
    s.PushState(0, target, s.posn, Leaf(token));
    SafeFacts(d, c, text, s.Abs(), 0);
    ok := s.Reserve(heap);
  }

  function NowShifted(g: Glr, target: nat, token: nat): Glr
    requires |g.tops| == 1
  {
    ShiftToken(g, 0, target, g.pos + 1, token).(pos := g.pos + 1)
  }

  /** Where deterministic operation stops in the state on top, and why. */
  ghost predicate StopsFor(d: GlrTables, text: seq<nat>, g: Glr, stop: Stop) {
    && d.lr.Sized() && IsLive(g, 0)
    && var state := g.cells[g.tops[0]].lr;
    && state < d.lr.NStates()
    && match stop
       case Accepted => state == d.lr.final
       case Conflict => InConflict(d, text, g, 0) && state != d.lr.final
       case SyntaxError =>
         state != d.lr.final && d.lr.Action(state, TokenAt(text, g.pos)) == Fail && !InConflict(d, text, g, 0)
       case TooLong => true
       case _ => false
  }

  /** The first loop of `yyparse` on values. */
  function RunNow(d: GlrTables, sup: Supply, text: seq<nat>, p: Point, fuel: nat): (Point, Stop)
    decreases fuel, 0
  {
    if fuel == 0 || !d.lr.Sized() || |p.g.tops| != 1 then (p, TooLong)
    else
      var state := StateOf(d, p.g, 0);
      var token := TokenAt(text, p.g.pos);
      var i := d.ConflictAt(state, token);
      if state == d.lr.final then (p, Accepted)
      else if !d.lr.IsDefaulted(state) && i < |d.confl| && d.confl[i] != 0 then (p, Conflict)
      else
        match d.lr.Action(state, token)
        case ShiftTo(target) => RunOn(d, sup, text, NowShifted(p.g, target, token), p.m, fuel - 1)
        case Fail => (p, SyntaxError)
        case ReduceBy(r) => RunOn(d, sup, text, NowReduced(d.lr, p.g, r), p.m, fuel - 1)
  }

  /** The loop goes on with `g` if there is space. */
  function RunOn(d: GlrTables, sup: Supply, text: seq<nat>, g: Glr, m: Memory, fuel: nat): (Point, Stop)
    decreases fuel, 1
  {
    match Reserved(sup, g, m)
    case Ends(p) => RunNow(d, sup, text, p, fuel)
    case NoRoom(p) => (p, NoMemory)
    case _ => (Point(g, m), TooLong)
  }

  /** What the loop does to memory. */
  ghost predicate AccountedNow(sup: Supply, asked: nat, end: (Point, Stop)) {
    if end.1.NoMemory? then RanOut(sup, asked, end.0) else Served(sup.start, asked, end.0.m.asked)
  }

  lemma {:induction false} RunNowAccounted(d: GlrTables, sup: Supply, text: seq<nat>, p: Point, fuel: nat)
    ensures AccountedNow(sup, p.m.asked, RunNow(d, sup, text, p, fuel))
    decreases fuel, 0
  {
    hide NowReduced, NowShifted, d.lr.Action, RunOn;
    if fuel > 0 && d.lr.Sized() && |p.g.tops| == 1 {
      match d.lr.Action(StateOf(d, p.g, 0), TokenAt(text, p.g.pos))
      case ShiftTo(target) =>
        RunOnAccounted(d, sup, text, NowShifted(p.g, target, TokenAt(text, p.g.pos)), p.m, fuel - 1);
      case Fail =>
      case ReduceBy(r) => RunOnAccounted(d, sup, text, NowReduced(d.lr, p.g, r), p.m, fuel - 1);
    }
  }

  lemma {:induction false} RunOnAccounted(d: GlrTables, sup: Supply, text: seq<nat>, g: Glr, m: Memory, fuel: nat)
    ensures AccountedNow(sup, m.asked, RunOn(d, sup, text, g, m, fuel))
    decreases fuel, 1
  {
    hide RunNow;
    ReservedAccounted(sup, g, m);
    var v := Reserved(sup, g, m);
    if v.Ends? { RunNowAccounted(d, sup, text, v.p, fuel); }
  }

  /** The first loop of `yyparse`. */
  method Deterministic(s: GlrStack, heap: Heap, d: GlrTables, text: seq<nat>, fuel: nat, ghost c: Certificate)
    returns (stop: Stop)
    requires ConflictsChecked(d, c) && Lexed(d, text) && !Cyclic(c.g) && Linear(d, c, text, s)
    modifies s, s.items, heap
    ensures s.items == old(s.items) || fresh(s.items)
    ensures s.Shape() && RunNow(d, Sup(s, heap), text, old(Here(s, heap)), fuel) == (Here(s, heap), stop)
    ensures !stop.NoMemory? ==> Linear(d, c, text, s) && StopsFor(d, text, s.Abs(), stop)
  {
    hide ConflictsChecked, Lexed, Cyclic, Safe, CellsOf, RefsOf, Checked, Inv, ItemPoints, InConflict, d.Listed,
      d.lr.Sized, NowReduced, NowShifted, RunNow, RunOn, Reserved, CanReduce, CanShift, Called;
    var left: nat := fuel;
    ghost var start, sup := Here(s, heap), Sup(s, heap);
    NoDefaultConflicts(d, c);
    while true
      invariant s.items == old(s.items) || fresh(s.items)
      invariant Linear(d, c, text, s)
      invariant RunNow(d, sup, text, start, fuel) == RunNow(d, sup, text, Here(s, heap), left)
      decreases left
    {
      LinearFacts(d, c, text, s);
      ghost var p := Here(s, heap);
      NowStep(d, sup, text, p, left);
      if left == 0 {
        return TooLong;
      }
      left := left - 1;
      var state := s.items[s.nextFree - 1].lr;
      var token := TokenAt(text, s.posn);
      Decision(d, text, p.g, state);
      if state == d.lr.final {
        return Accepted;
      }
      if d.lr.IsDefaulted(state) {
        var action := d.lr.Default(state);
        if !action.ReduceBy? {
          return SyntaxError;
        }
        var ok := GlrReduceNow(s, heap, d, action.rule, c, text);
        OnStep(d, sup, text, s.Abs(), p.m, left);
        if !ok {
          return NoMemory;
        }
      } else {
        var i := d.ConflictAt(state, token);
        if i < |d.confl| && d.confl[i] != 0 {
          return Conflict;
        }
        match d.lr.Action(state, token) {
          case ShiftTo(target) =>
            var ok := GlrShiftNow(s, heap, d, target, token, c, text);
            OnStep(d, sup, text, s.Abs(), p.m, left);
            if !ok {
              return NoMemory;
            }
          case Fail =>
            return SyntaxError;
          case ReduceBy(rule) =>
            var ok := GlrReduceNow(s, heap, d, rule, c, text);
            OnStep(d, sup, text, s.Abs(), p.m, left);
            if !ok {
              return NoMemory;
            }
        }
      }
    }
  }

  /** One trip of the loop on values. */
  lemma NowStep(d: GlrTables, sup: Supply, text: seq<nat>, p: Point, fuel: nat)
    requires d.lr.Sized() && IsLive(p.g, 0) && |p.g.tops| == 1 && p.g.cells[p.g.tops[0]].lr < d.lr.NStates()
    ensures var state, token := p.g.cells[p.g.tops[0]].lr, TokenAt(text, p.g.pos);
      var i := d.ConflictAt(state, token);
      RunNow(d, sup, text, p, fuel) ==
        if fuel == 0 then (p, TooLong)
        else if state == d.lr.final then (p, Accepted)
        else if !d.lr.IsDefaulted(state) && i < |d.confl| && d.confl[i] != 0 then (p, Conflict)
        else
          match d.lr.Action(state, token)
          case ShiftTo(target) => RunOn(d, sup, text, NowShifted(p.g, target, token), p.m, fuel - 1)
          case Fail => (p, SyntaxError)
          case ReduceBy(r) => RunOn(d, sup, text, NowReduced(d.lr, p.g, r), p.m, fuel - 1)
  {
    hide d.lr.Sized, RunOn;
  }

  lemma OnStep(d: GlrTables, sup: Supply, text: seq<nat>, g: Glr, m: Memory, fuel: nat)
    ensures match Reserved(sup, g, m)
      case Ends(p) => RunOn(d, sup, text, g, m, fuel) == RunNow(d, sup, text, p, fuel)
      case NoRoom(p) => RunOn(d, sup, text, g, m, fuel) == (p, NoMemory)
      case _ => true
  {
    hide RunNow;
  }

  lemma NoDefaultConflicts(d: GlrTables, c: Certificate)
    requires ConflictsChecked(d, c)
    ensures |d.confl| > 0 && d.confl[0] == 0
  {
    hide Checked;
  }

  /** What the table lookups of the loop mean. */
  lemma Decision(d: GlrTables, text: seq<nat>, g: Glr, state: nat)
    requires d.lr.Sized() && IsLive(g, 0) && state == g.cells[g.tops[0]].lr < d.lr.NStates()
    ensures var token := TokenAt(text, g.pos); var i := d.ConflictAt(state, token);
      && (InConflict(d, text, g, 0) <==> i < |d.confl| && d.confl[i] != 0)
      && (d.lr.IsDefaulted(state) ==> d.lr.Action(state, token) == d.lr.Default(state))
      && (d.lr.IsDefaulted(state) && |d.confl| > 0 && d.confl[0] == 0 ==> !InConflict(d, text, g, 0))
      && (forall r | d.lr.Action(state, token) == ReduceBy(r) && state != d.lr.final :: CanReduce(d, text, g, 0, r))
      && (forall target | d.lr.Action(state, token) == ShiftTo(target) && state != d.lr.final ::
          CanShift(d, text, g, 0, target))
  {
  }

  /** `yyresolveStack` on the arena, when one stack is left: its values are resolved on the cells that the items
      represent, and those found are stored. */
  method Resolve(s: GlrStack, d: GlrTables, w: Priorities, merge: Merger, ghost c: Certificate, ghost text: seq<nat>)
    returns (ok: bool, ghost live: set<Ref>, ghost rank: nat, ghost trace: seq<Cells>)
    requires s.Shape() && Inv(d.lr, c, text, s.Abs()) && s.splitPoint != 0 && |s.tops| == 1 && s.tops[0] != 0
    requires !Cyclic(c.g) && MergeSound(c.g, merge) && |w.dprec| == |w.merger| == |d.lr.r2|
    modifies s.items
    ensures s.Shape() && trace != []
    ensures ok ==> Evaluated(d.lr, w, merge, c, text, old(s.Abs()), live, rank, trace)
    ensures ok ==> EndsResolved(d.lr, c, text, old(s.Abs()), trace)
    ensures ok ==> s.Abs() == old(s.Abs()).(cells := GlrReturn.Revalued(old(s.Abs()).cells, Reached(trace)))
    ensures ok ==> GlrReturn.Resolution(d.lr, c, text, old(s.Abs()), s.Abs().cells)
    ensures !ok ==> Ambiguity(d.lr, w, merge, c, text, old(s.Abs()), live, rank, trace)
  {
    hide Inv, Cyclic, MergeSound, Loose, GlrReturn.Resolution, Clashing, Resolves, ItemPoints, RefsOf, CellFrame,
      GlrReturn.StackStuck, GlrReturn.StackYields;
    ghost var g := s.Abs();
    var cells := new Cell[s.nextFree](i requires 0 <= i < s.nextFree <= s.items.Length reads s, s.items =>
      CellOf(s.base, s.items[i]));
    assert cells[..] == g.cells;
    ok, live, rank, trace :=
      GlrReturn.ResolveStack(cells, d.lr, w, merge, Offset(s.base, s.tops[0]), Offset(s.base, s.splitPoint), c,
                             text, g);
    if ok {
      ghost var after := cells[..];
      ghost var before := s.items[..];
      ResolvesParts(d.lr, w, merge, c, text, live, [g.cells], trace, after, rank);
      Resolved(d.lr, c, text, g, after);
      forall i | 0 <= i < s.nextFree {
        s.items[i] := StoredItem(s.items[i], cells[i]);
      }
      Stored(s.base, s.nextFree, before, s.items[..], g.cells, after);
      s.ShapeIs(s.items[..s.nextFree]);
    } else {
      StoppedAt(d.lr, w, merge, c, text, g, live, rank, trace, cells[..]);
    }
  }

  /** The values of the only stack of `g` have been resolved, step by step as the selection among the options of
      each state calls for, up to the last arena of the run. */
  ghost predicate Evaluated(t: Tables, w: Priorities, merge: Merger, c: Certificate, text: seq<nat>, g: Glr,
                            live: set<Ref>, rank: nat, trace: seq<Cells>) {
    && Loose(t, c, text, g.cells, live)
    && trace != [] && |Reached(trace)| == |g.cells|
    && Resolves(t, w, merge, c, text, live, [g.cells], trace, Reached(trace), rank, true)
    && GlrReturn.StackYields(t, w, merge, g, Eval.Known(Reached(trace)))
  }

  /** The arena that the run ends with keeps all states and links, and has derivations for values. */
  ghost predicate EndsResolved(t: Tables, c: Certificate, text: seq<nat>, g: Glr, trace: seq<Cells>) {
    |g.tops| == 1 && g.split >= 0 && trace != [] && GlrReturn.Resolution(t, c, text, g, Reached(trace))
  }

  /** The resolution is stuck: the value of a state of the only stack of `g` calls for that of a state where there
      is no preference between two options. */
  ghost predicate Ambiguity(t: Tables, w: Priorities, merge: Merger, c: Certificate, text: seq<nat>, g: Glr,
                            live: set<Ref>, rank: nat, trace: seq<Cells>) {
    && Loose(t, c, text, g.cells, live)
    && trace != [] && GlrReturn.StackStuck(t, w, g, Reached(trace))
    && (exists cells ::
        Resolves(t, w, merge, c, text, live, [g.cells], trace, cells, rank, false)
        && GlrReturn.StackYields(t, w, merge, g, Eval.NoChoice(cells)))
    && exists x, y :: Clashing(t, w, g.cells, live, x, y)
  }

  lemma StoppedAt(t: Tables, w: Priorities, merge: Merger, c: Certificate, text: seq<nat>, g: Glr, live: set<Ref>,
                  rank: nat, trace: seq<Cells>, cells: Cells)
    requires Loose(t, c, text, g.cells, live) && trace != [] && GlrReturn.StackStuck(t, w, g, Reached(trace))
    requires Resolves(t, w, merge, c, text, live, [g.cells], trace, cells, rank, false)
    requires GlrReturn.StackYields(t, w, merge, g, Eval.NoChoice(cells))
    requires exists x, y :: Clashing(t, w, g.cells, live, x, y)
    ensures Ambiguity(t, w, merge, c, text, g, live, rank, trace)
  {
    hide Loose, Resolves, Clashing, GlrReturn.StackStuck, GlrReturn.StackYields;
  }

  lemma Resolved(t: Tables, c: Certificate, text: seq<nat>, g: Glr, after: Cells)
    requires Inv(t, c, text, g) && g.split != NULL && |g.tops| == 1 && g.split >= 0
    requires GlrReturn.Resolution(t, c, text, g, after)
    ensures SameFrame(g.cells, after) && GlrReturn.Resolution(t, c, text, g, GlrReturn.Revalued(g.cells, after))
  {
    hide Inv;
    GlrReturn.RevaluedResolution(t, c, text, g, after);
  }

  /** The item with the value found for its state, if there is one. */
  function StoredItem(x: Arena.Item, cell: Cell): Arena.Item {
    if cell.StateCell? && cell.sem.Val? && x.State? then x.(semantics := Value(cell.sem.tree)) else x
  }

  /** Storing the values. */
  lemma Stored(base: nat, n: nat, before: Items, now: Items, cells: Cells, after: Cells)
    requires base > 0 && n <= |before| == |now| && cells == CellsOf(base, before[..n]) && SameFrame(cells, after)
    requires forall i | 0 <= i < n :: ItemPoints(base, n, before[i])
    requires forall i | 0 <= i < n :: now[i] == StoredItem(before[i], after[i])
    ensures CellsOf(base, now[..n]) == GlrReturn.Revalued(cells, after)
    ensures forall i | 0 <= i < n :: ItemPoints(base, n, now[..n][i])
  {
    forall i | 0 <= i < n
      ensures CellOf(base, now[i]) == GlrReturn.Revalued(cells, after)[i] && ItemPoints(base, n, now[i])
    {
      assert CellFrame(cells[i], after[i]);
      assert cells[i] == CellOf(base, before[i]);
    }
    assert CellsOf(base, now[..n]) == GlrReturn.Revalued(cells, after);
  }

  /** The way back to deterministic operation: `yyresolveStack` and `yycompressStack`. The values on the stack
      are those that the precedences and mergers select. */
  method ReturnNow(s: GlrStack, d: GlrTables, w: Priorities, merge: Merger, ghost c: Certificate, ghost text: seq<nat>)
    returns (ok: bool, ghost live: set<Ref>, ghost rank: nat, ghost trace: seq<Cells>)
    requires Working(d, c, text, s) && s.splitPoint != 0 && |s.tops| == 1 && IsLive(s.Abs(), 0)
    requires !Cyclic(c.g) && MergeSound(c.g, merge) && |w.dprec| == |w.merger| == |d.lr.r2|
    modifies s, s.items
    ensures s.Shape() && s.items == old(s.items)
    ensures ok ==> Linear(d, c, text, s) && s.posn == old(s.posn)
    ensures ok ==> CameBack(d.lr, w, merge, c, text, old(s.Abs()), s.Abs(), live, rank, trace)
    ensures !ok ==> Ambiguity(d.lr, w, merge, c, text, old(s.Abs()), live, rank, trace)
  {
    hide Cyclic, MergeSound, GlrReturn.Resolution, GlrReturn.Revalued, Ambiguity, Evaluated, ItemPoints, CellsOf,
      RefsOf, Inv, Safe, Path, Contents, GlrCompress.Compress;
    ghost var g := s.Abs();
    SafeFacts(d, c, text, g, 0);
    SplitKnown(s, d, c, text);
    ok, live, rank, trace := Resolve(s, d, w, merge, c, text);
    if ok {
      GlrReturn.RevaluedCompress(d.lr, c, text, g, Reached(trace));
      s.Compress(d.lr, c, text, g);
      LinearSafe(d, c, text, s.Abs());
    }
  }

  /** `g'` is `g` with its values resolved, and compressed; the stack holds the same states. */
  ghost predicate CameBack(t: Tables, w: Priorities, merge: Merger, c: Certificate, text: seq<nat>, g: Glr, g': Glr,
                           live: set<Ref>, rank: nat, trace: seq<Cells>) {
    && Evaluated(t, w, merge, c, text, g, live, rank, trace) && EndsResolved(t, c, text, g, trace)
    && g' == GlrCompress.Compress(g.(cells := Reached(trace)))
    && |g.tops| == 1 && |g'.tops| == 1 && Path(g'.cells, g'.tops[0]) == Path(g.cells, g.tops[0])
  }

  lemma LinearSafe(d: GlrTables, c: Certificate, text: seq<nat>, g: Glr)
    requires Inv(d.lr, c, text, g) && g.split == NULL
    ensures Safe(d, c, text, g)
  {
    hide Inv, Marked;
    LinearMark(d, c, text, g);
    SafeBy(d, c, text, g, |g.cells| - 1);
  }

  lemma SplitKnown(s: GlrStack, d: GlrTables, c: Certificate, text: seq<nat>)
    requires Working(d, c, text, s) && s.splitPoint != 0 && |s.tops| == 1 && IsLive(s.Abs(), 0)
    ensures s.Abs().split >= 0 && s.tops[0] != 0 && |s.Abs().tops| == 1
  {
    hide Safe;
  }

  /** The second loop of `yyparse` on values, for `rounds` rounds: it ends when one stack is left. */
  function Rounds(d: GlrTables, sup: Supply, text: seq<nat>, p: Point, rounds: nat, fuel: nat): Result
    decreases rounds
  {
    if rounds == 0 then Unfinished
    else
      match RoundOn(d, sup, text, p, fuel)
      case Ends(p') => if |p'.g.tops| == 1 then Ends(p') else Rounds(d, sup, text, p', rounds - 1, fuel)
      case other => other
  }

  lemma {:induction false} RoundsAccounted(d: GlrTables, sup: Supply, text: seq<nat>, p: Point, rounds: nat, fuel: nat)
    ensures Accounted(sup, p.m.asked, Rounds(d, sup, text, p, rounds, fuel))
    decreases rounds
  {
    hide RoundOn;
    if rounds > 0 {
      RoundAccounted(d, sup, text, p, fuel);
      var v := RoundOn(d, sup, text, p, fuel);
      if v.Ends? {
        RoundsAccounted(d, sup, text, v.p, rounds - 1, fuel);
        AccountedOn(sup, p.m.asked, v.p.m.asked, Rounds(d, sup, text, v.p, rounds - 1, fuel));
      }
    }
  }

  /** No round meets the final state. */
  lemma {:induction false} RoundsCalm(d: GlrTables, c: Certificate, sup: Supply, text: seq<nat>, p: Point, rounds: nat,
                                      fuel: nat)
    requires ConflictsChecked(d, c) && Lexed(d, text) && !Cyclic(c.g) && d.lr.Sized() && EndsOnce(d.lr)
    requires Safe(d, c, text, p.g) && Calm(d.lr, p.g, NULL) && (p.g.split != NULL || InConflict(d, text, p.g, 0))
    ensures Rounds(d, sup, text, p, rounds, fuel) != Final
    decreases rounds
  {
    hide ConflictsChecked, Lexed, Cyclic, EndsOnce, Safe, Calm, InConflict, RoundOn, d.lr.Sized;
    if rounds > 0 {
      RoundCalm(d, c, sup, text, p, fuel);
      var v := RoundOn(d, sup, text, p, fuel);
      if v.Ends? { RoundKeeps(d, c, sup, text, p, fuel); }
      if v.Ends? && |v.p.g.tops| != 1 { RoundsCalm(d, c, sup, text, v.p, rounds - 1, fuel); }
    }
  }

  /** Deterministic operation has stopped at a conflict. */
  lemma ConflictCalm(d: GlrTables, c: Certificate, text: seq<nat>, s: GlrStack)
    requires Linear(d, c, text, s) && Lexed(d, text) && StopsFor(d, text, s.Abs(), Conflict)
    ensures s.nextFree <= s.items.Length && Calm(d.lr, s.Abs(), NULL)
  {
    hide Inv, Safe, InConflict, d.lr.Sized;
    LinearFacts(d, c, text, s);
  }

  /** The second loop stops at `end`, after its rounds have come to `r`: a single stack has been resolved, or turned
      out ambiguous. */
  ghost predicate Follows(d: GlrTables, w: Priorities, merge: Merger, c: Certificate, text: seq<nat>, r: Result,
                          stop: Stop, end: Point, live: set<Ref>, rank: nat, trace: seq<Cells>) {
    match r
    case Ends(p) =>
      || (stop == Returned && end.m == p.m && CameBack(d.lr, w, merge, c, text, p.g, end.g, live, rank, trace))
      || (stop == Ambiguous && end.m == p.m && Ambiguity(d.lr, w, merge, c, text, p.g, live, rank, trace))
    case NoneLeft(p) => stop == SyntaxError && end == p
    case NoRoom(p) => stop == NoMemory && end == p
    case Final => stop == AssertionFails
    case Unfinished => stop == TooLong
  }

  /** The second loop of `yyparse`. */
  method Nondeterministic(s: GlrStack, heap: Heap, d: GlrTables, w: Priorities, merge: Merger, text: seq<nat>,
                          fuel: nat, ghost c: Certificate)
    returns (stop: Stop, ghost live: set<Ref>, ghost rank: nat, ghost trace: seq<Cells>)
    requires ConflictsChecked(d, c) && Lexed(d, text) && !Cyclic(c.g) && MergeSound(c.g, merge)
    requires |w.dprec| == |w.merger| == |d.lr.r2|
    requires Working(d, c, text, s) && (s.Abs().split != NULL || InConflict(d, text, s.Abs(), 0))
    modifies s, s.items, heap
    ensures s.items == old(s.items) || fresh(s.items)
    ensures s.Shape()
    ensures Follows(d, w, merge, c, text, Rounds(d, Sup(s, heap), text, old(Here(s, heap)), fuel, fuel), stop,
      Here(s, heap), live, rank, trace)
    ensures stop.Returned? ==> Linear(d, c, text, s)
  {
    hide ConflictsChecked, Lexed, Cyclic, MergeSound, Safe, CellsOf, RefsOf, ItemPoints, InConflict, CameBack,
      Ambiguity, Inv, Path, RoundOn, Survivors, ShiftAll, Targets, AllShift, ProcessFrom;
    live, rank, trace := {}, 0, [];
    var left: nat := fuel;
    ghost var start, sup := Here(s, heap), Sup(s, heap);
    while left > 0
      invariant s.items == old(s.items) || fresh(s.items)
      invariant Working(d, c, text, s) && (s.Abs().split != NULL || InConflict(d, text, s.Abs(), 0))
      invariant Rounds(d, sup, text, start, fuel, fuel) == Rounds(d, sup, text, Here(s, heap), left, fuel)
    {
      left := left - 1;
      var outcome := Round(s, heap, d, TokenAt(text, s.posn), fuel, c, text);
      match outcome {
        case Exhausted => return NoMemory, live, rank, trace;
        case OutOfFuel => return TooLong, live, rank, trace;
        case AtFinal => return AssertionFails, live, rank, trace;
        case AllDead => return SyntaxError, live, rank, trace;
        case Done =>
      }
      if |s.tops| == 1 {
        var ok;
        ok, live, rank, trace := ReturnNow(s, d, w, merge, c, text);
        return (if ok then Returned else Ambiguous), live, rank, trace;
      }
    }
    stop := TooLong;
  }

  /** One turn of the outer loop from `p` to `end`: the first loop stops there, or it stops at a conflict and the second
      one does. The outer loop goes on if that has returned to a single stack. */
  ghost predicate Turn(d: GlrTables, sup: Supply, w: Priorities, merge: Merger, c: Certificate, text: seq<nat>,
                       fuel: nat, p: Point, stop: Stop, end: Point) {
    var (q, first) := RunNow(d, sup, text, p, fuel);
    if first != Conflict then stop == first && end == q
    else exists live, rank, trace ::
      Follows(d, w, merge, c, text, Rounds(d, sup, text, q, fuel, fuel), stop, end, live, rank, trace)
  }

  /** The points at which the outer loop has been entered. */
  ghost predicate Turns(d: GlrTables, sup: Supply, w: Priorities, merge: Merger, c: Certificate, text: seq<nat>,
                        fuel: nat, ps: seq<Point>) {
    ps != [] && forall i: nat | i + 1 < |ps| :: Turn(d, sup, w, merge, c, text, fuel, ps[i], Returned, ps[i + 1])
  }

  lemma TurnsMore(d: GlrTables, sup: Supply, w: Priorities, merge: Merger, c: Certificate, text: seq<nat>, fuel: nat,
                  ps: seq<Point>, p: Point)
    requires Turns(d, sup, w, merge, c, text, fuel, ps)
    requires Turn(d, sup, w, merge, c, text, fuel, ps[|ps| - 1], Returned, p)
    ensures Turns(d, sup, w, merge, c, text, fuel, ps + [p])
  {
    hide Turn;
    forall i: nat | i + 1 < |ps + [p]|
      ensures Turn(d, sup, w, merge, c, text, fuel, (ps + [p])[i], Returned, (ps + [p])[i + 1])
    {
      if i + 1 < |ps| { assert Turn(d, sup, w, merge, c, text, fuel, ps[i], Returned, ps[i + 1]); }
    }
  }

  /** What a turn does to memory. */
  lemma TurnAccounted(d: GlrTables, sup: Supply, w: Priorities, merge: Merger, c: Certificate, text: seq<nat>,
                      fuel: nat, p: Point, stop: Stop, end: Point)
    requires Turn(d, sup, w, merge, c, text, fuel, p, stop, end)
    ensures stop.Returned? ==> Served(sup.start, p.m.asked, end.m.asked)
    ensures stop.NoMemory? ==> RanOut(sup, p.m.asked, end)
    ensures !stop.Conflict?
  {
    hide RunNow, Rounds, CameBack, Ambiguity;
    RunNowAccounted(d, sup, text, p, fuel);
    var (q, first) := RunNow(d, sup, text, p, fuel);
    NeverReturned(d, sup, text, p, fuel);
    if first == Conflict {
      RoundsAccounted(d, sup, text, q, fuel, fuel);
      AccountedOn(sup, p.m.asked, q.m.asked, Rounds(d, sup, text, q, fuel, fuel));
    }
  }

  /** The first loop does not stop as the second one may. */
  lemma {:induction false} NeverReturned(d: GlrTables, sup: Supply, text: seq<nat>, p: Point, fuel: nat)
    ensures var stop := RunNow(d, sup, text, p, fuel).1; !stop.Returned? && !stop.Ambiguous? && !stop.AssertionFails?
    decreases fuel
  {
    hide NowReduced, NowShifted, d.lr.Action, Reserved;
    if fuel > 0 && d.lr.Sized() && |p.g.tops| == 1 {
      match d.lr.Action(StateOf(d, p.g, 0), TokenAt(text, p.g.pos))
      case ShiftTo(target) =>
        var v := Reserved(sup, NowShifted(p.g, target, TokenAt(text, p.g.pos)), p.m);
        if v.Ends? { NeverReturned(d, sup, text, v.p, fuel - 1); }
      case Fail =>
      case ReduceBy(r) =>
        var v := Reserved(sup, NowReduced(d.lr, p.g, r), p.m);
        if v.Ends? { NeverReturned(d, sup, text, v.p, fuel - 1); }
    }
  }

  /** One turn of the outer loop of `yyparse`; it goes on if the result is `Returned`. */
  method TakeTurn(s: GlrStack, heap: Heap, d: GlrTables, w: Priorities, merge: Merger, text: seq<nat>, fuel: nat,
                  ghost c: Certificate)
    returns (stop: Stop)
    requires ConflictsChecked(d, c) && Lexed(d, text) && !Cyclic(c.g) && MergeSound(c.g, merge)
    requires |w.dprec| == |w.merger| == |d.lr.r2| && Linear(d, c, text, s)
    modifies s, s.items, heap
    ensures s.items == old(s.items) || fresh(s.items)
    ensures s.Shape() && Turn(d, Sup(s, heap), w, merge, c, text, fuel, old(Here(s, heap)), stop, Here(s, heap))
    ensures stop.Returned? ==> Linear(d, c, text, s)
    ensures stop.Accepted? ==> Linear(d, c, text, s) && StopsFor(d, text, s.Abs(), Accepted)
    ensures d.lr.Sized() && EndsOnce(d.lr) ==> !stop.AssertionFails?
  {
    hide ConflictsChecked, Lexed, Cyclic, MergeSound, Safe, CellsOf, RefsOf, ItemPoints, InConflict, Inv, CameBack,
      Ambiguity, d.lr.Sized, RunNow, Rounds, EndsOnce, Calm;
    stop := Deterministic(s, heap, d, text, fuel, c);
    if stop.Conflict? {
      ConflictCalm(d, c, text, s);
      ghost var q, sup := Here(s, heap), Sup(s, heap);
      if d.lr.Sized() && EndsOnce(d.lr) { RoundsCalm(d, c, sup, text, q, fuel, fuel); }
      ghost var live, rank, trace;
      stop, live, rank, trace := Nondeterministic(s, heap, d, w, merge, text, fuel, c);
    }
  }

  /** A parse that enters the outer loop at the points `ps` stops at `end`: as its last turn does, or because there
      have been more turns than allowed. */
  ghost predicate Parses(d: GlrTables, sup: Supply, w: Priorities, merge: Merger, c: Certificate, text: seq<nat>,
                         fuel: nat, ps: seq<Point>, stop: Stop, end: Point) {
    && Turns(d, sup, w, merge, c, text, fuel, ps)
    && ((stop.TooLong? && |ps| > fuel) || Turn(d, sup, w, merge, c, text, fuel, ps[|ps| - 1], stop, end))
  }

  /** `yyparse` up to the first syntax error. Turn by turn it does what the two loops do on values, from the empty
      stack on, and ends as the last turn does. If it accepts, what has been read is a sentence; if it runs out of
      memory, the arena may not grow any more or the last request has been refused. */
  method Parse(s: GlrStack, heap: Heap, d: GlrTables, w: Priorities, merge: Merger, text: seq<nat>, fuel: nat,
               ghost c: Certificate)
    returns (stop: Stop, ghost ps: seq<Point>)
    requires ConflictsChecked(d, c) && Lexed(d, text) && !Cyclic(c.g) && MergeSound(c.g, merge)
    requires |w.dprec| == |w.merger| == |d.lr.r2|
    requires Roomy(s) && s.splitPoint == 0 && exists v :: s.Abs() == Start(v)
    modifies s, s.items, heap
    ensures s.Shape() && Parses(d, Sup(s, heap), w, merge, c, text, fuel, ps, stop, Here(s, heap))
    ensures ps[0] == old(Here(s, heap))
    ensures stop.NoMemory? ==> RanOut(Sup(s, heap), old(heap.asked), Here(s, heap))
    ensures stop.Accepted? ==> Linear(d, c, text, s) && Parsed(c, text, s.Abs())
    ensures !stop.Returned? && !stop.Conflict?
    ensures d.lr.Sized() && EndsOnce(d.lr) ==> !stop.AssertionFails?
  {
    hide ConflictsChecked, Lexed, Cyclic, MergeSound, Safe, CellsOf, RefsOf, ItemPoints, InConflict, Inv, Parsed,
      d.lr.Sized, Turn, Turns, RanOut, Served, EndsOnce;
    StartSafe(d, c, text, s.Abs());
    ghost var sup := Sup(s, heap);
    ps := [Here(s, heap)];
    FirstTurn(d, sup, w, merge, c, text, fuel, ps[0]);
    var turns: nat := 0;
    while turns < fuel
      invariant turns == |ps| - 1
      invariant s.items == old(s.items) || fresh(s.items)
      invariant Linear(d, c, text, s)
      invariant ps != [] && ps[0] == old(Here(s, heap)) && ps[|ps| - 1] == Here(s, heap)
      invariant Turns(d, sup, w, merge, c, text, fuel, ps) && Served(sup.start, old(heap.asked), heap.asked)
      decreases fuel - turns
    {
      turns := turns + 1;
      ghost var p := Here(s, heap);
      stop := TakeTurn(s, heap, d, w, merge, text, fuel, c);
      TurnAccounted(d, sup, w, merge, c, text, fuel, p, stop, Here(s, heap));
      if stop.Accepted? {
        AcceptedNow(d, c, text, s);
      }
      if !stop.Returned? {
        if stop.NoMemory? { AccountedOn(sup, old(heap.asked), p.m.asked, NoRoom(Here(s, heap))); }
        return;
      }
      ServedOn(sup.start, old(heap.asked), p.m.asked, heap.asked);
      TurnsMore(d, sup, w, merge, c, text, fuel, ps, Here(s, heap));
      ps := ps + [Here(s, heap)];
    }
    stop := TooLong;
  }

  lemma StartSafe(d: GlrTables, c: Certificate, text: seq<nat>, g: Glr)
    requires ConflictsChecked(d, c) && exists v :: g == Start(v)
    ensures Safe(d, c, text, g)
  {
    hide Inv, Marked, Checked;
    var v :| g == Start(v);
    StartInv(d, c, text, v);
    SafeBy(d, c, text, g, 0);
  }

  lemma AcceptedNow(d: GlrTables, c: Certificate, text: seq<nat>, s: GlrStack)
    requires Linear(d, c, text, s) && Lexed(d, text) && StopsFor(d, text, s.Abs(), Accepted)
    ensures s.nextFree <= s.items.Length && Parsed(c, text, s.Abs())
  {
    hide Inv, InConflict, Safe;
    LinearFacts(d, c, text, s);
    AcceptedSafe(d, c, text, s.Abs());
  }

  lemma FirstTurn(d: GlrTables, sup: Supply, w: Priorities, merge: Merger, c: Certificate, text: seq<nat>, fuel: nat,
                  p: Point)
    ensures Turns(d, sup, w, merge, c, text, fuel, [p]) && Served(sup.start, p.m.asked, p.m.asked)
  {
  }

  lemma ServedOn(start: nat -> nat, a: nat, b: nat, c: nat)
    requires Served(start, a, b) && Served(start, b, c)
    ensures Served(start, a, c)
  {
  }
}
