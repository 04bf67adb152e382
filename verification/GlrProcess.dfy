/** `yyprocessOneStack` and the loops around it in `yyparse`, on the arena of addresses: when a round of
    reductions is over, every stack that is still alive can shift the token. */
module GlrProcess {
  import opened Grammar
  import opened LrTables
  import opened GlrForest
  import opened GlrMachine
  import opened GlrCyclic
  import opened GlrRun
  import opened GlrStack
  import opened UnitSteps

  /** `AtFinal` is the failure of the assertion that no stack is in the final state. */
  datatype Outcome = Done | Exhausted | OutOfFuel | AtFinal | AllDead

  /** Stack `j` is the same in both configurations, as far as its next action goes. */
  ghost predicate SameStack(g: Glr, g': Glr, j: nat) {
    && j < |g.tops| && j < |g'.tops| && g'.tops[j] == g.tops[j] && g'.pos == g.pos
    && (IsState(g.cells, g.tops[j]) ==> IsState(g'.cells, g.tops[j]) && g'.cells[g.tops[j]].lr == g.cells[g.tops[j]].lr)
  }

  /** The stack is dead, or its action on the token is to shift it. */
  ghost predicate Settled(d: GlrTables, text: seq<nat>, g: Glr, j: nat) {
    j < |g.tops| && (g.tops[j] == NULL || exists s :: CanShift(d, text, g, j, s))
  }

  lemma SettledStays(d: GlrTables, text: seq<nat>, g: Glr, g': Glr, j: nat)
    requires Settled(d, text, g, j) && SameStack(g, g', j)
    ensures Settled(d, text, g', j)
  {
    if g.tops[j] != NULL {
      var s :| CanShift(d, text, g, j, s);
      assert CanShift(d, text, g', j, s);
    }
  }

  /** All stacks but number `k` are as they were, and those added since are settled. */
  ghost predicate Progress(d: GlrTables, text: seq<nat>, g: Glr, g': Glr, k: nat) {
    && |g.tops| <= |g'.tops| && g'.pos == g.pos
    && (forall j: nat | j < |g.tops| && j != k :: SameStack(g, g', j))
    && (forall j: nat | |g.tops| <= j < |g'.tops| :: Settled(d, text, g', j))
  }

  lemma ProgressSelf(d: GlrTables, text: seq<nat>, g: Glr, k: nat)
    ensures Progress(d, text, g, g, k)
  {
  }

  /** An operation on stack `k` alone. */
  lemma ProgressStep(d: GlrTables, text: seq<nat>, g: Glr, g': Glr, g'': Glr, k: nat)
    requires Progress(d, text, g, g', k) && |g''.tops| == |g'.tops| && g''.pos == g'.pos && k < |g.tops|
    requires forall j: nat | j < |g'.tops| && j != k :: SameStack(g', g'', j)
    ensures Progress(d, text, g, g'', k)
  {
    forall j: nat | j < |g.tops| && j != k
      ensures SameStack(g, g'', j)
    {
      assert SameStack(g, g', j) && SameStack(g', g'', j);
    }
    forall j: nat | |g.tops| <= j < |g''.tops|
      ensures Settled(d, text, g'', j)
    {
      SettledStays(d, text, g', g'', j);
    }
  }

  /** A stack split off and then processed until it is settled. */
  lemma ProgressSplit(d: GlrTables, text: seq<nat>, g: Glr, g': Glr, g1: Glr, g'': Glr, k: nat, n: nat)
    requires Progress(d, text, g, g', k) && k < |g.tops| && n == |g'.tops| && |g1.tops| == n + 1
    requires forall j: nat | j < n :: SameStack(g', g1, j)
    requires Progress(d, text, g1, g'', n) && Settled(d, text, g'', n)
    ensures Progress(d, text, g, g'', k) && SameStack(g', g'', k)
  {
    assert SameStack(g', g1, k) && SameStack(g1, g'', k);
    forall j: nat | j < |g.tops| && j != k
      ensures SameStack(g, g'', j)
    {
      assert SameStack(g, g', j) && SameStack(g', g1, j) && SameStack(g1, g'', j);
    }
    forall j: nat | |g.tops| <= j < |g''.tops|
      ensures Settled(d, text, g'', j)
    {
      if j < n {
        assert SameStack(g', g1, j) && SameStack(g1, g'', j);
        SettledStays(d, text, g', g1, j);
        SettledStays(d, text, g1, g'', j);
      }
    }
  }

  /** Deferred reductions disturb no other stack. */
  lemma ReduceOthers(t: Tables, g: Glr, k: nat, r: nat)
    requires t.Sized() && t.IsRule(r) && IsLive(g, k)
    requires IsState(g.cells, Base(t, g, k, r)) && g.cells[Base(t, g, k, r)].lr < t.NStates()
    ensures var g' := ReduceDeferred(t, g, k, r);
      && |g'.tops| == |g.tops| && g'.pos == g.pos && (g.split != NULL ==> g'.split != NULL)
      && forall j: nat | j < |g.tops| && j != k :: SameStack(g, g', j)
  {
    hide t.Sized, MergeTarget, Climb;
  }

  lemma SplitOthers(g: Glr, k: nat)
    requires k < |g.tops|
    ensures var g' := SplitStack(g, k);
      && |g'.tops| == |g.tops| + 1 && g'.pos == g.pos
      && (forall j: nat | j < |g.tops| :: SameStack(g, g', j))
      && g'.tops[|g.tops|] == g.tops[k] && g'.cells == g.cells
  {
  }

  lemma KillOthers(d: GlrTables, text: seq<nat>, g: Glr, k: nat)
    requires k < |g.tops|
    ensures var g' := Kill(g, k);
      && |g'.tops| == |g.tops| && g'.pos == g.pos
      && (forall j: nat | j < |g.tops| && j != k :: SameStack(g, g', j))
      && Settled(d, text, g', k)
  {
  }

  /** A configuration, and the memory that it is in. */
  datatype Point = Point(g: Glr, m: Memory)

  ghost function Here(s: GlrStack, heap: Heap): Point
    requires s.nextFree <= s.items.Length
    reads s, s.items, heap
  {
    Point(s.Abs(), Memory(s.items.Length, heap.asked))
  }

  ghost function Sup(s: GlrStack, heap: Heap): Supply {
    Supply(s.maxDepth, heap.start)
  }

  /** How a part of the parse ends: with a configuration, without a live stack, for want of memory, in the final
      state where it should not be, or not within the number of steps allowed. */
  datatype Result = Ends(p: Point) | NoneLeft(p: Point) | NoRoom(p: Point) | Final | Unfinished

  /** The outcome of a method, which leaves `p`, is the result `r` on values. */
  ghost predicate EndsAs(outcome: Outcome, p: Point, r: Result) {
    match outcome
    case Done => r == Ends(p)
    case AllDead => r == NoneLeft(p)
    case Exhausted => r == NoRoom(p)
    case AtFinal => r == Final
    case OutOfFuel => r == Unfinished
  }

  /** Requests number `from` to `to - 1` have all been served. */
  ghost predicate Served(start: nat -> nat, from: nat, to: nat) {
    from <= to && forall k: nat | from <= k < to :: start(k) > 0
  }

  /** No more items fit in `p`, or the last request made was refused. */
  ghost predicate RanOut(sup: Supply, asked: nat, p: Point) {
    || (|p.g.cells| + HEADROOM > sup.maxDepth && Served(sup.start, asked, p.m.asked))
    || (asked < p.m.asked && Served(sup.start, asked, p.m.asked - 1) && sup.start(p.m.asked - 1) == 0)
  }

  /** What becomes of the requests: an end with a configuration has been refused none; memory is wanting only if
      the arena may not grow or a request has been refused. */
  ghost predicate Accounted(sup: Supply, asked: nat, r: Result) {
    match r
    case Ends(p) => Served(sup.start, asked, p.m.asked)
    case NoneLeft(p) => Served(sup.start, asked, p.m.asked)
    case NoRoom(p) => RanOut(sup, asked, p)
    case _ => true
  }

  /** The reservation of space after an operation has led to `g`. */
  function Reserved(sup: Supply, g: Glr, m: Memory): Result {
    var v := Reserving(sup, m, |g.cells|);
    if v.ok then Ends(Point(g, v.memory)) else NoRoom(Point(g, v.memory))
  }

  lemma ReservedAccounted(sup: Supply, g: Glr, m: Memory)
    ensures Accounted(sup, m.asked, Reserved(sup, g, m))
    ensures !Reserved(sup, g, m).Ends? ==> Reserved(sup, g, m).NoRoom?
  {
  }

  lemma AccountedOn(sup: Supply, a: nat, b: nat, r: Result)
    requires Served(sup.start, a, b) && Accounted(sup, b, r)
    ensures Accounted(sup, a, r)
  {
  }

  /** The arena is in working order: space for two more items, and the invariant. */
  ghost predicate Working(d: GlrTables, c: Certificate, text: seq<nat>, s: GlrStack)
    reads s, s.items
  {
    && s.Shape() && s.spaceLeft >= HEADROOM && 2 * HEADROOM <= s.items.Length <= s.maxDepth
    && Safe(d, c, text, s.Abs())
  }

  lemma SafeFacts(d: GlrTables, c: Certificate, text: seq<nat>, g: Glr, k: nat)
    requires Safe(d, c, text, g)
    ensures Inv(d.lr, c, text, g) && Checked(d.lr, c) && RulesMatch(d.lr, c) && d.lr.Sized()
    ensures k < |g.tops| && g.tops[k] != NULL ==> IsLive(g, k) && g.cells[g.tops[k]].lr < d.lr.NStates()
    ensures forall i | IsState(g.cells, i) :: !g.cells[i].sem.Clobbered?
  {
    hide Forest, Checked, Marked, SplitOk;
    var mark :| Inv(d.lr, c, text, g) && Marked(d.lr, c, text, g, mark);
    CoreForest(d.lr, c, text, g);
    forall i | IsState(g.cells, i)
      ensures !g.cells[i].sem.Clobbered?
    {
      NoClobber(d.lr, c, text, g.cells, i);
    }
  }

  lemma DeferStep(d: GlrTables, c: Certificate, text: seq<nat>, g: Glr, k: nat, r: nat)
    requires ConflictsChecked(d, c) && Lexed(d, text) && !Cyclic(c.g) && Safe(d, c, text, g) && g.split != NULL
    requires CanReduce(d, text, g, k, r)
    ensures RulesMatch(d.lr, c) && IsLive(g, k) && g.cells[g.tops[k]].lr < d.lr.NStates()
    ensures ReductionSound(d.lr, c, g.cells[g.tops[k]].lr, r)
    ensures d.lr.IsRule(r)
    ensures IsState(g.cells, Base(d.lr, g, k, r)) && g.cells[Base(d.lr, g, k, r)].lr < d.lr.NStates()
    ensures Safe(d, c, text, ReduceDeferred(d.lr, g, k, r))
  {
    hide Inv, Marked, ConflictsChecked, Lexed, Cyclic, Checked, ReduceDeferred;
    var mark :| Inv(d.lr, c, text, g) && Marked(d.lr, c, text, g, mark);
    ReduceSound(d, c, text, g, k, r);
    MarkedReduce(d.lr, c, text, g, mark, k, r);
    SafeBy(d, c, text, ReduceDeferred(d.lr, g, k, r), mark);
  }

  /** `yyglrReduce` in nondeterministic operation, with the reservation of space at its end. */
  method GlrReduce(s: GlrStack, heap: Heap, d: GlrTables, k: nat, r: nat, ghost c: Certificate, ghost text: seq<nat>)
    returns (ok: bool)
    requires ConflictsChecked(d, c) && Lexed(d, text) && !Cyclic(c.g)
    requires Working(d, c, text, s) && s.Abs().split != NULL && CanReduce(d, text, s.Abs(), k, r)
    modifies s, s.items, heap
    ensures s.items == old(s.items) || fresh(s.items)
    ensures s.Shape() && s.Abs() == Reduced(d.lr, old(s.Abs()), k, r)
    ensures Reducing(d, Sup(s, heap), old(Here(s, heap)), k, r) ==
      if ok then Ends(Here(s, heap)) else NoRoom(Here(s, heap))
    ensures ok ==> Working(d, c, text, s)
  {
    hide ConflictsChecked, Lexed, Cyclic, Safe, CanReduce, CellsOf, RefsOf, ReduceDeferred, SameStack, Checked, Inv,
      ItemPoints, ReductionSound;
    ghost var g := s.Abs();
    SafeFacts(d, c, text, g, k);
    DeferStep(d, c, text, g, k, r);
    s.ReduceLater(d.lr, c, text, k, r);
    ghost var g' := s.Abs();
    SafeFacts(d, c, text, g', k);
    ok := s.Reserve(heap);
  }

  /** The state on top of stack `k`. */
  method TopState(s: GlrStack, k: nat, ghost d: GlrTables, ghost c: Certificate, ghost text: seq<nat>)
    returns (state: nat)
    requires Working(d, c, text, s) && k < |s.tops| && s.tops[k] != 0
    ensures IsLive(s.Abs(), k) && state == s.Abs().cells[s.Abs().tops[k]].lr && d.lr.Sized() && state < d.lr.NStates()
  {
    hide Safe, CellsOf, RefsOf, ItemPoints, d.lr.Sized, Inv, Checked, RulesMatch;
    SafeFacts(d, c, text, s.Abs(), k);
    s.StateAt(s.tops[k]);
    state := s.items[s.tops[k] - s.base].lr;
  }

  lemma SplitSafe(d: GlrTables, c: Certificate, text: seq<nat>, g: Glr, k: nat)
    requires Safe(d, c, text, g) && k < |g.tops| && IsLive(g, k)
    ensures Safe(d, c, text, SplitStack(g, k)) && SplitStack(g, k).split != NULL
  {
    hide Inv, Marked;
    var mark :| Inv(d.lr, c, text, g) && Marked(d.lr, c, text, g, mark);
    SplitStackKeeps(d.lr, c, text, g, k);
    MarkedSplit(d.lr, c, text, g, mark, k);
    SafeBy(d, c, text, SplitStack(g, k), mark);
  }

  lemma KillSafe(d: GlrTables, c: Certificate, text: seq<nat>, g: Glr, k: nat)
    requires Safe(d, c, text, g) && k < |g.tops| && g.split != NULL
    ensures Safe(d, c, text, Kill(g, k))
  {
    hide Inv, Marked;
    var mark :| Inv(d.lr, c, text, g) && Marked(d.lr, c, text, g, mark);
    KillKeeps(d.lr, c, text, g, k);
    MarkedKill(d.lr, c, text, g, mark, k);
    SafeBy(d, c, text, Kill(g, k), mark);
  }

  /** There are conflicts to be followed up in the state on top of stack `k`. */
  ghost predicate InConflict(d: GlrTables, text: seq<nat>, g: Glr, k: nat) {
    && d.lr.Sized() && IsLive(g, k) && g.cells[g.tops[k]].lr < d.lr.NStates()
    && d.Listed(d.ConflictAt(g.cells[g.tops[k]].lr, TokenAt(text, g.pos))) != []
  }

  function Reduced(t: Tables, g: Glr, k: nat, r: nat): Glr {
    if t.Sized() && t.IsRule(r) && IsLive(g, k)
       && IsState(g.cells, Base(t, g, k, r))
       && g.cells[Base(t, g, k, r)].lr < t.NStates() then ReduceDeferred(t, g, k, r)
    else g
  }

  /** The state on top of a stack. */
  function StateOf(d: GlrTables, g: Glr, k: nat): nat {
    if d.lr.Sized() && IsLive(g, k) && g.cells[g.tops[k]].lr < d.lr.NStates() then g.cells[g.tops[k]].lr else 0
  }

  /** A reduction with its reservation of space. */
  function Reducing(d: GlrTables, sup: Supply, p: Point, k: nat, r: nat): Result {
    Reserved(sup, Reduced(d.lr, p.g, k, r), p.m)
  }

  /** `yyprocessOneStack` on values. */
  function Process(d: GlrTables, sup: Supply, text: seq<nat>, p: Point, k: nat, fuel: nat): Result
    decreases fuel, 1, 0
  {
    if !d.lr.Sized() || k >= |p.g.tops| || p.g.tops[k] == NULL then Ends(p)
    else if fuel == 0 then Unfinished
    else
      var s := StateOf(d, p.g, k);
      var token := TokenAt(text, p.g.pos);
      if s == d.lr.final then Final
      else if d.lr.IsDefaulted(s) then
        match d.lr.Default(s)
        case ReduceBy(r) => ReduceOn(d, sup, text, p, k, r, fuel - 1)
        case _ => Ends(p.(g := Kill(p.g, k)))
      else
        match Follow(d, sup, text, p, k, d.ConflictAt(s, token), fuel - 1)
        case Ends(p') =>
          (match d.lr.Action(s, token)
           case ShiftTo(_) => Ends(p')
           case Fail => if k < |p'.g.tops| then Ends(p'.(g := Kill(p'.g, k))) else Ends(p')
           case ReduceBy(r) => ReduceOn(d, sup, text, p', k, r, fuel - 1))
        case other => other
  }

  /** A reduction of stack `k`, and what comes of it. */
  function ReduceOn(d: GlrTables, sup: Supply, text: seq<nat>, p: Point, k: nat, r: nat, fuel: nat): Result
    decreases fuel, 1, 1
  {
    match Reducing(d, sup, p, k, r)
    case Ends(p') => Process(d, sup, text, p', k, fuel)
    case other => other
  }

  /** Its loop over the conflicting rules from number `i` of `yyconfl` on: split off a stack for each,
      reduce it by that rule, and process it. */
  function Follow(d: GlrTables, sup: Supply, text: seq<nat>, p: Point, k: nat, i: nat, fuel: nat): Result
    decreases fuel, 2, |d.confl| - i
  {
    if i >= |d.confl| || d.confl[i] == 0 || k >= |p.g.tops| then Ends(p)
    else
      match Forked(d, sup, text, p, k, d.confl[i], fuel)
      case Ends(p') => Follow(d, sup, text, p', k, i + 1, fuel)
      case other => other
  }

  /** The body of that loop. */
  function Forked(d: GlrTables, sup: Supply, text: seq<nat>, p: Point, k: nat, r: nat, fuel: nat): Result
    decreases fuel, 1, 2
  {
    if k >= |p.g.tops| then Ends(p)
    else ReduceOn(d, sup, text, p.(g := SplitStack(p.g, k)), |p.g.tops|, r, fuel)
  }

  /** Whatever becomes of a stack, memory is accounted for. */
  lemma {:induction false} ProcessAccounted(d: GlrTables, sup: Supply, text: seq<nat>, p: Point, k: nat, fuel: nat)
    ensures Accounted(sup, p.m.asked, Process(d, sup, text, p, k, fuel))
    decreases fuel, 1, 0
  {
    hide Reducing, Kill, Follow, d.lr.Action, d.lr.Default;
    if d.lr.Sized() && k < |p.g.tops| && p.g.tops[k] != NULL && fuel > 0 {
      var s, token := StateOf(d, p.g, k), TokenAt(text, p.g.pos);
      if d.lr.IsDefaulted(s) {
        match d.lr.Default(s)
        case ReduceBy(r) => ReduceOnAccounted(d, sup, text, p, k, r, fuel - 1);
        case _ =>
      } else {
        var followed := Follow(d, sup, text, p, k, d.ConflictAt(s, token), fuel - 1);
        FollowAccounted(d, sup, text, p, k, d.ConflictAt(s, token), fuel - 1);
        if followed.Ends? {
          match d.lr.Action(s, token)
          case ReduceBy(r) =>
            ReduceOnAccounted(d, sup, text, followed.p, k, r, fuel - 1);
            AccountedOn(sup, p.m.asked, followed.p.m.asked, ReduceOn(d, sup, text, followed.p, k, r, fuel - 1));
          case _ =>
        }
      }
    }
  }

  lemma {:induction false} ReduceOnAccounted(d: GlrTables, sup: Supply, text: seq<nat>, p: Point, k: nat, r: nat,
                                             fuel: nat)
    ensures Accounted(sup, p.m.asked, ReduceOn(d, sup, text, p, k, r, fuel))
    decreases fuel, 1, 1
  {
    hide Reserved, Process;
    ReservedAccounted(sup, Reduced(d.lr, p.g, k, r), p.m);
    var v := Reducing(d, sup, p, k, r);
    if v.Ends? {
      ProcessAccounted(d, sup, text, v.p, k, fuel);
      AccountedOn(sup, p.m.asked, v.p.m.asked, Process(d, sup, text, v.p, k, fuel));
    }
  }

  lemma {:induction false} FollowAccounted(d: GlrTables, sup: Supply, text: seq<nat>, p: Point, k: nat, i: nat,
                                           fuel: nat)
    ensures Accounted(sup, p.m.asked, Follow(d, sup, text, p, k, i, fuel))
    decreases fuel, 2, |d.confl| - i
  {
    hide ReduceOn, SplitStack;
    if i < |d.confl| && d.confl[i] != 0 && k < |p.g.tops| {
      ReduceOnAccounted(d, sup, text, p.(g := SplitStack(p.g, k)), |p.g.tops|, d.confl[i], fuel);
      var v := Forked(d, sup, text, p, k, d.confl[i], fuel);
      if v.Ends? {
        FollowAccounted(d, sup, text, v.p, k, i + 1, fuel);
        AccountedOn(sup, p.m.asked, v.p.m.asked, Follow(d, sup, text, v.p, k, i + 1, fuel));
      }
    }
  }

  /** What is asked for before a stack is processed. */
  ghost predicate Ready(d: GlrTables, c: Certificate, text: seq<nat>, g: Glr, k: nat) {
    && ConflictsChecked(d, c) && Lexed(d, text) && !Cyclic(c.g) && Safe(d, c, text, g) && k < |g.tops|
    && (g.split != NULL || InConflict(d, text, g, k))
  }

  /** What holds when a stack has been processed: the invariant; the stack is dead or about to shift, and
      so are all stacks split off it; all others are as they were. */
  ghost predicate Processed(d: GlrTables, c: Certificate, text: seq<nat>, g: Glr, g': Glr, k: nat) {
    Safe(d, c, text, g') && g'.split != NULL && Progress(d, text, g, g', k) && Settled(d, text, g', k)
  }

  lemma StateFacts(d: GlrTables, c: Certificate, text: seq<nat>, g: Glr, k: nat)
    requires Ready(d, c, text, g, k) && g.tops[k] != NULL
    ensures d.lr.Sized() && IsLive(g, k) && g.cells[g.tops[k]].lr == StateOf(d, g, k) < d.lr.NStates()
    ensures g.split == NULL ==>
      !d.lr.IsDefaulted(StateOf(d, g, k)) && d.Listed(d.ConflictAt(StateOf(d, g, k), TokenAt(text, g.pos))) != []
  {
    hide Safe, Lexed, Cyclic, Checked;
    SafeFacts(d, c, text, g, k);
    if g.split == NULL { NoDefault(d, c, text, g, k); }
  }

  /** A reduction of stack `k` that the tables call for. */
  lemma ReduceStep(d: GlrTables, c: Certificate, text: seq<nat>, g: Glr, k: nat, r: nat)
    requires Ready(d, c, text, g, k) && g.split != NULL && CanReduce(d, text, g, k, r)
    ensures var g' := Reduced(d.lr, g, k, r);
      && Ready(d, c, text, g', k) && g'.split != NULL && |g'.tops| == |g.tops| && g'.pos == g.pos
      && (forall j: nat | j < |g.tops| && j != k :: SameStack(g, g', j))
      && RulesMatch(d.lr, c) && IsLive(g, k) && g.cells[g.tops[k]].lr < d.lr.NStates()
      && ReductionSound(d.lr, c, g.cells[g.tops[k]].lr, r)
      && d.lr.IsRule(r) && IsState(g.cells, Base(d.lr, g, k, r)) && g.cells[Base(d.lr, g, k, r)].lr < d.lr.NStates()
      && g' == ReduceDeferred(d.lr, g, k, r)
  {
    hide ConflictsChecked, Lexed, Cyclic, Safe, CanReduce, ReduceDeferred, SameStack, Checked, InConflict,
      ReductionSound;
    SafeFacts(d, c, text, g, k);
    DeferStep(d, c, text, g, k, r);
    ReduceOthers(d.lr, g, k, r);
  }

  /** Splitting off a stack and reducing it by a conflicting rule. */
  lemma ForkStep(d: GlrTables, c: Certificate, text: seq<nat>, g: Glr, k: nat, r: nat)
    requires Ready(d, c, text, g, k) && g.tops[k] != NULL && StateOf(d, g, k) != d.lr.final
    requires d.lr.Sized() && StateOf(d, g, k) < d.lr.NStates() && Called(d, StateOf(d, g, k), TokenAt(text, g.pos), r)
    ensures var g1 := SplitStack(g, k); var n := |g.tops|; var g2 := Reduced(d.lr, g1, n, r);
      && Ready(d, c, text, g1, n) && g1.split != NULL && CanReduce(d, text, g1, n, r) && |g1.tops| == n + 1
      && g1.pos == g.pos
      && (forall j: nat | j < n :: SameStack(g, g1, j))
      && Ready(d, c, text, g2, n) && g2.split != NULL && |g2.tops| == n + 1 && g2.pos == g.pos
      && (forall j: nat | j < n + 1 && j != n :: SameStack(g1, g2, j))
  {
    hide ConflictsChecked, Lexed, Cyclic, Safe, ReduceDeferred, SameStack, Checked, Called, Reduced;
    StateFacts(d, c, text, g, k);
    SplitSafe(d, c, text, g, k);
    SplitOthers(g, k);
    var g1 := SplitStack(g, k);
    assert CanReduce(d, text, g1, |g.tops|, r);
    ReduceStep(d, c, text, g1, |g.tops|, r);
  }

  lemma KillStep(d: GlrTables, c: Certificate, text: seq<nat>, g: Glr, g': Glr, k: nat)
    requires Safe(d, c, text, g') && g'.split != NULL && Progress(d, text, g, g', k) && k < |g.tops| <= |g'.tops|
    ensures Processed(d, c, text, g, Kill(g', k), k)
  {
    hide Safe, Settled, Progress, SameStack;
    KillSafe(d, c, text, g', k);
    KillOthers(d, text, g', k);
    ProgressStep(d, text, g, g', Kill(g', k), k);
  }

  lemma {:induction false} ProcessKeeps(d: GlrTables, c: Certificate, sup: Supply, text: seq<nat>, p: Point, k: nat,
                                        fuel: nat)
    requires Ready(d, c, text, p.g, k) && Process(d, sup, text, p, k, fuel).Ends?
    ensures Processed(d, c, text, p.g, Process(d, sup, text, p, k, fuel).p.g, k)
    decreases fuel, 1, 0
  {
    hide ConflictsChecked, Lexed, Cyclic, Safe, Progress, Settled, SameStack, Kill, d.Listed, d.lr.Sized, Follow,
      ReduceOn, Checked, InConflict, Called;
    var g := p.g;
    ProgressSelf(d, text, g, k);
    if g.tops[k] == NULL {
      DeadSettled(d, text, g, k);
      if g.split == NULL { ConflictLive(d, text, g, k); }
    } else {
      StateFacts(d, c, text, g, k);
      var s, token := StateOf(d, g, k), TokenAt(text, g.pos);
      if d.lr.IsDefaulted(s) {
        match d.lr.Default(s)
        case ReduceBy(r) =>
          DefaultCalled(d, s, token, r);
          assert CanReduce(d, text, g, k, r);
          ReduceOnKeeps(d, c, sup, text, g, p, k, r, fuel - 1);
        case _ => KillStep(d, c, text, g, g, k);
      } else {
        FollowStart(d, s, token);
        FollowKeeps(d, c, sup, text, p, k, d.ConflictAt(s, token), fuel - 1);
        var p' := Follow(d, sup, text, p, k, d.ConflictAt(s, token), fuel - 1).p;
        ProgressPart(d, text, g, p'.g, k);
        StateFacts(d, c, text, p'.g, k);
        match d.lr.Action(s, token)
        case ShiftTo(target) => ShiftSettled(d, text, p'.g, k, target);
        case Fail => KillStep(d, c, text, g, p'.g, k);
        case ReduceBy(r) =>
          ActionCalled(d, s, token, r);
          assert CanReduce(d, text, p'.g, k, r);
          ReduceOnKeeps(d, c, sup, text, g, p', k, r, fuel - 1);
      }
    }
  }

  /** A reduction on the way from `g` on. */
  lemma {:induction false} ReduceOnKeeps(d: GlrTables, c: Certificate, sup: Supply, text: seq<nat>, g: Glr, p: Point,
                                         k: nat, r: nat, fuel: nat)
    requires Ready(d, c, text, p.g, k) && p.g.split != NULL && CanReduce(d, text, p.g, k, r) && k < |g.tops|
    requires Progress(d, text, g, p.g, k) && ReduceOn(d, sup, text, p, k, r, fuel).Ends?
    ensures Processed(d, c, text, g, ReduceOn(d, sup, text, p, k, r, fuel).p.g, k)
    decreases fuel, 1, 1
  {
    hide ConflictsChecked, Lexed, Cyclic, Safe, Progress, Settled, SameStack, Reduced, Process, Checked, InConflict,
      CanReduce;
    ReduceStep(d, c, text, p.g, k, r);
    var p' := Reducing(d, sup, p, k, r).p;
    ProgressStep(d, text, g, p.g, p'.g, k);
    ProcessKeeps(d, c, sup, text, p', k, fuel);
    ProgressTrans(d, text, g, p'.g, Process(d, sup, text, p', k, fuel).p.g, k);
  }

  lemma DefaultCalled(d: GlrTables, s: nat, token: nat, r: nat)
    requires d.lr.Sized() && s < d.lr.NStates() && d.lr.IsDefaulted(s) && d.lr.Default(s) == ReduceBy(r)
    ensures Called(d, s, token, r)
  {
  }

  lemma ActionCalled(d: GlrTables, s: nat, token: nat, r: nat)
    requires d.lr.Sized() && s < d.lr.NStates() && d.lr.Action(s, token) == ReduceBy(r)
    ensures Called(d, s, token, r)
  {
  }

  /** Following up the conflicts of a live stack leaves it as it was, and every stack split off it
      settled. */
  lemma {:induction false} FollowKeeps(d: GlrTables, c: Certificate, sup: Supply, text: seq<nat>, p: Point, k: nat,
                                       i: nat, fuel: nat)
    requires ConflictsChecked(d, c) && Lexed(d, text) && !Cyclic(c.g) && Safe(d, c, text, p.g) && k < |p.g.tops|
    requires p.g.tops[k] != NULL
    requires p.g.split != NULL || (InConflict(d, text, p.g, k) && d.Listed(i) != [])
    requires StateOf(d, p.g, k) != d.lr.final && ToFollow(d, StateOf(d, p.g, k), TokenAt(text, p.g.pos), i)
    requires Follow(d, sup, text, p, k, i, fuel).Ends?
    ensures var g, g' := p.g, Follow(d, sup, text, p, k, i, fuel).p.g;
      && Safe(d, c, text, g') && g'.split != NULL && Progress(d, text, g, g', k) && SameStack(g, g', k)
      && IsLive(g, k) && IsLive(g', k) && StateOf(d, g', k) == StateOf(d, g, k) && Ready(d, c, text, g', k)
    decreases fuel, 2, |d.confl| - i
  {
    hide ConflictsChecked, Lexed, Cyclic, Safe, Progress, Settled, SameStack, d.Listed, d.lr.Sized, Forked, Checked,
      InConflict, Called, ToFollow;
    var g := p.g;
    StateFacts(d, c, text, g, k);
    ProgressSelf(d, text, g, k);
    SelfSame(d, text, g, k);
    if i >= |d.confl| || d.confl[i] == 0 {
      FollowEnd(d, i);
    } else {
      FollowNext(d, StateOf(d, g, k), TokenAt(text, g.pos), i);
      var p3 := Forked(d, sup, text, p, k, d.confl[i], fuel).p;
      ForkedFacts(d, c, sup, text, p, p3, k, d.confl[i], fuel);
      FollowKeeps(d, c, sup, text, p3, k, i + 1, fuel);
      var p4 := Follow(d, sup, text, p3, k, i + 1, fuel).p;
      ProgressTrans(d, text, g, p3.g, p4.g, k);
      SameTrans(g, p3.g, p4.g, k);
    }
  }

  lemma SelfSame(d: GlrTables, text: seq<nat>, g: Glr, k: nat)
    requires k < |g.tops|
    ensures SameStack(g, g, k)
  {
  }

  lemma SameTrans(g: Glr, g': Glr, g'': Glr, k: nat)
    requires SameStack(g, g', k) && SameStack(g', g'', k)
    ensures SameStack(g, g'', k)
  {
  }

  lemma ProgressPart(d: GlrTables, text: seq<nat>, g: Glr, g': Glr, k: nat)
    requires Progress(d, text, g, g', k)
    ensures |g.tops| <= |g'.tops| && g'.pos == g.pos
  {
  }

  lemma ProgressTrans(d: GlrTables, text: seq<nat>, g: Glr, g': Glr, g'': Glr, k: nat)
    requires Progress(d, text, g, g', k) && Progress(d, text, g', g'', k) && k < |g.tops|
    ensures Progress(d, text, g, g'', k)
  {
    hide Settled;
    forall j: nat | j < |g.tops| && j != k
      ensures SameStack(g, g'', j)
    {
      assert SameStack(g, g', j) && SameStack(g', g'', j);
    }
    forall j: nat | |g.tops| <= j < |g''.tops|
      ensures Settled(d, text, g'', j)
    {
      if j < |g'.tops| { SettledStays(d, text, g', g'', j); }
    }
  }

  /** All rules listed from `i` on are called for in state `state`. */
  ghost predicate ToFollow(d: GlrTables, state: nat, token: nat, i: nat) {
    d.lr.Sized() && state < d.lr.NStates() && forall r | r in d.Listed(i) :: Called(d, state, token, r)
  }

  lemma FollowNext(d: GlrTables, state: nat, token: nat, i: nat)
    requires ToFollow(d, state, token, i) && i < |d.confl| && d.confl[i] != 0
    ensures d.lr.Sized() && state < d.lr.NStates() && Called(d, state, token, d.confl[i])
    ensures ToFollow(d, state, token, i + 1)
    ensures d.Listed(i) != [] && |d.Listed(i + 1)| < |d.Listed(i)|
  {
    assert d.confl[i] in d.Listed(i);
  }

  lemma FollowStart(d: GlrTables, state: nat, token: nat)
    requires d.lr.Sized() && state < d.lr.NStates()
    ensures ToFollow(d, state, token, d.ConflictAt(state, token))
  {
  }

  lemma FollowEnd(d: GlrTables, i: nat)
    requires !(i < |d.confl| && d.confl[i] != 0)
    ensures d.Listed(i) == []
  {
  }

  lemma ProgressFollow(d: GlrTables, text: seq<nat>, g0: Glr, g: Glr, g1: Glr, g2: Glr, g3: Glr, k: nat, added: nat)
    requires Progress(d, text, g0, g, k) && k < |g0.tops| && added == |g.tops| && |g1.tops| == |g2.tops| == added + 1
    requires forall j: nat | j < |g.tops| :: SameStack(g, g1, j)
    requires g2.pos == g1.pos && g1.pos == g.pos && forall j: nat | j < |g1.tops| && j != added :: SameStack(g1, g2, j)
    requires Progress(d, text, g2, g3, added) && Settled(d, text, g3, added)
    ensures Progress(d, text, g0, g3, k) && SameStack(g, g3, k) && |g0.tops| <= |g3.tops| && g3.pos == g.pos
  {
    hide Settled;
    forall j: nat | j < |g.tops|
      ensures SameStack(g, g2, j)
    {
      assert SameStack(g, g1, j) && SameStack(g1, g2, j);
    }
    ProgressSplit(d, text, g0, g, g2, g3, k, added);
  }

  lemma StillLive(d: GlrTables, c: Certificate, text: seq<nat>, g: Glr, g': Glr, k: nat)
    requires SameStack(g, g', k) && IsLive(g, k)
    ensures IsLive(g', k) && g'.cells[g'.tops[k]].lr == g.cells[g.tops[k]].lr
  {
  }

  lemma DeadSettled(d: GlrTables, text: seq<nat>, g: Glr, k: nat)
    requires k < |g.tops| && g.tops[k] == NULL
    ensures Settled(d, text, g, k)
  {
  }

  lemma ShiftSettled(d: GlrTables, text: seq<nat>, g: Glr, k: nat, s': nat)
    requires CanShift(d, text, g, k, s')
    ensures Settled(d, text, g, k)
  {
  }

  /** A conflict excludes a default action. */
  lemma NoDefault(d: GlrTables, c: Certificate, text: seq<nat>, g: Glr, k: nat)
    requires InConflict(d, text, g, k) && ConflictsChecked(d, c)
    ensures IsLive(g, k) && d.lr.Sized() && g.cells[g.tops[k]].lr < d.lr.NStates()
    ensures !d.lr.IsDefaulted(g.cells[g.tops[k]].lr)
    ensures d.Listed(d.ConflictAt(g.cells[g.tops[k]].lr, TokenAt(text, g.pos))) != []
  {
    hide Checked;
  }

  lemma ConflictLive(d: GlrTables, text: seq<nat>, g: Glr, k: nat)
    requires InConflict(d, text, g, k)
    ensures k < |g.tops| && g.tops[k] != NULL
  {
  }

  /** The body of the loop of `yyprocessOneStack` over conflicting rules. */
  method FollowOne(s: GlrStack, heap: Heap, d: GlrTables, k: nat, token: nat, r: nat, fuel: nat, ghost c: Certificate,
                   ghost text: seq<nat>)
    returns (outcome: Outcome)
    requires Working(d, c, text, s) && Ready(d, c, text, s.Abs(), k) && s.tops[k] != 0 && token == TokenAt(text, s.posn)
    requires d.lr.Sized() && StateOf(d, s.Abs(), k) != d.lr.final && StateOf(d, s.Abs(), k) < d.lr.NStates()
    requires Called(d, StateOf(d, s.Abs(), k), token, r)
    modifies s, s.items, heap
    ensures s.items == old(s.items) || fresh(s.items)
    ensures s.Shape() && EndsAs(outcome, Here(s, heap), Forked(d, Sup(s, heap), text, old(Here(s, heap)), k, r, fuel))
    ensures outcome.Done? ==> Working(d, c, text, s)
    decreases fuel, 1, 1
  {
    hide ConflictsChecked, Lexed, Cyclic, Safe, CellsOf, RefsOf, SameStack, ItemPoints, d.lr.Sized, InConflict, Called,
      Process, Reduced, CanReduce, Reducing;
    ghost var g := s.Abs();
    StateFacts(d, c, text, g, k);
    ForkStep(d, c, text, g, k, r);
    SplitSafe(d, c, text, g, k);
    var added := s.Split(k);
    var ok := GlrReduce(s, heap, d, added, r, c, text);
    if !ok {
      return Exhausted;
    }
    outcome := ProcessOneStack(s, heap, d, added, token, fuel, c, text);
  }

  /** What becomes of the stack after one conflict has been followed up. */
  lemma {:induction false} ForkedFacts(d: GlrTables, c: Certificate, sup: Supply, text: seq<nat>, p: Point, p': Point,
                                       k: nat, r: nat, fuel: nat)
    requires Ready(d, c, text, p.g, k) && p.g.tops[k] != NULL && d.lr.Sized()
    requires StateOf(d, p.g, k) != d.lr.final && StateOf(d, p.g, k) < d.lr.NStates()
    requires Called(d, StateOf(d, p.g, k), TokenAt(text, p.g.pos), r)
    requires Forked(d, sup, text, p, k, r, fuel) == Ends(p')
    ensures Ready(d, c, text, p'.g, k) && p'.g.split != NULL && Progress(d, text, p.g, p'.g, k)
    ensures SameStack(p.g, p'.g, k)
    ensures p'.g.pos == p.g.pos && |p.g.tops| <= |p'.g.tops| && IsLive(p'.g, k)
    ensures StateOf(d, p'.g, k) == StateOf(d, p.g, k)
    decreases fuel, 1, 2
  {
    hide ConflictsChecked, Lexed, Cyclic, Safe, Progress, Settled, SameStack, Process, Reduced, Called, InConflict,
      SplitStack;
    var g, g' := p.g, p'.g;
    var n := |g.tops|;
    StateFacts(d, c, text, g, k);
    ForkStep(d, c, text, g, k, r);
    var g1 := SplitStack(g, k);
    var p2 := Reducing(d, sup, p.(g := g1), n, r).p;
    ProcessKeeps(d, c, sup, text, p2, n, fuel);
    ProgressSelf(d, text, g, k);
    ProgressFollow(d, text, g, g, g1, p2.g, g', k, n);
    StillLive(d, c, text, g, g', k);
  }

  /** The loop of `yyprocessOneStack` over the conflicting rules from `start` on. */
  method FollowConflicts(s: GlrStack, heap: Heap, d: GlrTables, k: nat, token: nat, state: nat, start: nat, fuel: nat,
                         ghost c: Certificate, ghost text: seq<nat>)
    returns (outcome: Outcome)
    requires ConflictsChecked(d, c) && Lexed(d, text) && !Cyclic(c.g) && token == TokenAt(text, s.posn)
    requires Working(d, c, text, s) && k < |s.tops| && s.tops[k] != 0
    requires state == StateOf(d, s.Abs(), k) != d.lr.final && ToFollow(d, state, token, start)
    requires s.Abs().split != NULL || (InConflict(d, text, s.Abs(), k) && d.Listed(start) != [])
    modifies s, s.items, heap
    ensures s.items == old(s.items) || fresh(s.items)
    ensures s.Shape()
    ensures EndsAs(outcome, Here(s, heap), Follow(d, Sup(s, heap), text, old(Here(s, heap)), k, start, fuel))
    ensures outcome.Done? ==> Working(d, c, text, s)
    decreases fuel, 2, 0
  {
    hide ConflictsChecked, Lexed, Cyclic, Safe, CellsOf, RefsOf, Progress, Settled, SameStack, ItemPoints, d.Listed,
      d.lr.Sized, InConflict, Called, ToFollow, Forked;
    ghost var p0, sup := Here(s, heap), Sup(s, heap);
    var i := start;
    while i < |d.confl| && d.confl[i] != 0
      invariant s.items == old(s.items) || fresh(s.items)
      invariant Working(d, c, text, s) && k < |s.tops| && s.tops[k] != 0 && s.posn == p0.g.pos
      invariant state == StateOf(d, s.Abs(), k) && ToFollow(d, state, token, i)
      invariant s.Abs().split != NULL || (InConflict(d, text, s.Abs(), k) && d.Listed(i) != [])
      invariant Follow(d, sup, text, p0, k, start, fuel) == Follow(d, sup, text, Here(s, heap), k, i, fuel)
      decreases |d.confl| - i
    {
      ghost var p := Here(s, heap);
      FollowNext(d, state, token, i);
      outcome := FollowOne(s, heap, d, k, token, d.confl[i], fuel, c, text);
      if !outcome.Done? {
        return;
      }
      ForkedFacts(d, c, sup, text, p, Here(s, heap), k, d.confl[i], fuel);
      i := i + 1;
    }
    outcome := Done;
  }

  /** A reduction of stack `k` itself. */
  method ReduceOwn(s: GlrStack, heap: Heap, d: GlrTables, k: nat, r: nat, ghost c: Certificate, ghost text: seq<nat>)
    returns (ok: bool)
    requires Working(d, c, text, s) && Ready(d, c, text, s.Abs(), k) && s.Abs().split != NULL
    requires CanReduce(d, text, s.Abs(), k, r)
    modifies s, s.items, heap
    ensures s.items == old(s.items) || fresh(s.items)
    ensures s.Shape()
    ensures Reducing(d, Sup(s, heap), old(Here(s, heap)), k, r) ==
      if ok then Ends(Here(s, heap)) else NoRoom(Here(s, heap))
    ensures ok ==> Working(d, c, text, s) && Ready(d, c, text, s.Abs(), k) && s.posn == old(s.posn)
  {
    hide ConflictsChecked, Lexed, Cyclic, Safe, CellsOf, RefsOf, SameStack, ItemPoints, InConflict, CanReduce, Reduced,
      ReduceDeferred, Reducing;
    ghost var g := s.Abs();
    ReduceStep(d, c, text, g, k, r);
    ok := GlrReduce(s, heap, d, k, r, c, text);
  }

  /** The death of a stack. */
  method Die(s: GlrStack, d: GlrTables, k: nat, ghost c: Certificate, ghost text: seq<nat>)
    requires Working(d, c, text, s) && s.Abs().split != NULL && k < |s.tops|
    modifies s`tops
    ensures Working(d, c, text, s) && s.Abs() == Kill(old(s.Abs()), k)
  {
    hide Safe, CellsOf, RefsOf, ItemPoints;
    KillSafe(d, c, text, s.Abs(), k);
    s.MarkDeleted(k);
  }

  /** One trip of the loop on values. */
  lemma ProcessStep(d: GlrTables, sup: Supply, text: seq<nat>, p: Point, k: nat, fuel: nat)
    requires d.lr.Sized() && IsLive(p.g, k) && p.g.cells[p.g.tops[k]].lr < d.lr.NStates() && fuel > 0
    ensures var s, token := p.g.cells[p.g.tops[k]].lr, TokenAt(text, p.g.pos);
      Process(d, sup, text, p, k, fuel) ==
        if s == d.lr.final then Final
        else if d.lr.IsDefaulted(s) then
          match d.lr.Default(s)
          case ReduceBy(r) => ReduceOn(d, sup, text, p, k, r, fuel - 1)
          case _ => Ends(p.(g := Kill(p.g, k)))
        else
          match Follow(d, sup, text, p, k, d.ConflictAt(s, token), fuel - 1)
          case Ends(p') =>
            (match d.lr.Action(s, token)
             case ShiftTo(_) => Ends(p')
             case Fail => if k < |p'.g.tops| then Ends(p'.(g := Kill(p'.g, k))) else Ends(p')
             case ReduceBy(r) => ReduceOn(d, sup, text, p', k, r, fuel - 1))
          case other => other
  {
    hide d.lr.Sized, ReduceOn, Follow, Kill;
  }

  lemma ProcessStart(d: GlrTables, sup: Supply, text: seq<nat>, p: Point, k: nat, fuel: nat)
    requires k < |p.g.tops|
    ensures p.g.tops[k] == NULL ==> Process(d, sup, text, p, k, fuel) == Ends(p)
    ensures p.g.tops[k] != NULL && fuel == 0 && d.lr.Sized() ==> Process(d, sup, text, p, k, fuel) == Unfinished
  {
    hide Follow, ReduceOn;
  }

  /** A reduction of the stack, and what comes of it. */
  lemma ReduceOnStep(d: GlrTables, sup: Supply, text: seq<nat>, p: Point, k: nat, r: nat, fuel: nat)
    ensures match Reducing(d, sup, p, k, r)
      case Ends(p') => ReduceOn(d, sup, text, p, k, r, fuel) == Process(d, sup, text, p', k, fuel)
      case other => ReduceOn(d, sup, text, p, k, r, fuel) == other
  {
    hide Process, Reducing;
  }

  /** `yyprocessOneStack`: reduce stack `k`, and every stack split off it, until the action is a shift or
      the stack dies.  `fuel` bounds the number of steps. */
  method ProcessOneStack(s: GlrStack, heap: Heap, d: GlrTables, k: nat, token: nat, fuel: nat, ghost c: Certificate,
                         ghost text: seq<nat>)
    returns (outcome: Outcome)
    requires Working(d, c, text, s) && Ready(d, c, text, s.Abs(), k) && token == TokenAt(text, s.posn)
    modifies s, s.items, heap
    ensures s.items == old(s.items) || fresh(s.items)
    ensures s.Shape() && EndsAs(outcome, Here(s, heap), Process(d, Sup(s, heap), text, old(Here(s, heap)), k, fuel))
    ensures outcome.Done? ==> Working(d, c, text, s)
    decreases fuel, 1, 0
  {
    hide ConflictsChecked, Lexed, Cyclic, Safe, CellsOf, RefsOf, Progress, Settled, SameStack, ItemPoints, d.Listed,
      d.lr.Sized, InConflict, ToFollow, Follow, Reduced, Kill, Called, Reducing, Process, ReduceOn;
    ghost var p0, sup := Here(s, heap), Sup(s, heap);
    var left: nat := fuel;
    while s.tops[k] != 0
      invariant s.items == old(s.items) || fresh(s.items)
      invariant Working(d, c, text, s) && k < |s.tops| && s.posn == p0.g.pos && Ready(d, c, text, s.Abs(), k)
      invariant Process(d, sup, text, p0, k, fuel) == Process(d, sup, text, Here(s, heap), k, left)
      invariant left <= fuel
      decreases left
    {
      ghost var p := Here(s, heap);
      StateFacts(d, c, text, p.g, k);
      if left == 0 {
        ProcessStart(d, sup, text, p, k, left);
        return OutOfFuel;
      }
      ProcessStep(d, sup, text, p, k, left);
      left := left - 1;
      var state := TopState(s, k, d, c, text);
      if state == d.lr.final {
        return AtFinal;
      }
      if d.lr.IsDefaulted(state) {
        var action := d.lr.Default(state);
        if !action.ReduceBy? {
          Die(s, d, k, c, text);
          return Done;
        }
        DefaultCalled(d, state, token, action.rule);
        assert CanReduce(d, text, p.g, k, action.rule);
        ReduceOnStep(d, sup, text, p, k, action.rule, left);
        var ok := ReduceOwn(s, heap, d, k, action.rule, c, text);
        if !ok {
          return Exhausted;
        }
      } else {
        FollowStart(d, state, token);
        outcome := FollowConflicts(s, heap, d, k, token, state, d.ConflictAt(state, token), left, c, text);
        if !outcome.Done? {
          return;
        }
        ghost var p' := Here(s, heap);
        Followed(d, c, sup, text, p, p', k, d.ConflictAt(state, token), left);
        match d.lr.Action(state, token) {
          case ShiftTo(_) =>
            return Done;
          case Fail =>
            Die(s, d, k, c, text);
            return Done;
          case ReduceBy(rule) =>
            ActionCalled(d, state, token, rule);
            assert CanReduce(d, text, p'.g, k, rule);
            ReduceOnStep(d, sup, text, p', k, rule, left);
            var ok := ReduceOwn(s, heap, d, k, rule, c, text);
            if !ok {
              return Exhausted;
            }
        }
      }
    }
    ProcessStart(d, sup, text, Here(s, heap), k, left);
    outcome := Done;
  }

  /** What is known when the conflicts have been followed up. */
  lemma Followed(d: GlrTables, c: Certificate, sup: Supply, text: seq<nat>, p: Point, p': Point, k: nat, i: nat,
                 fuel: nat)
    requires Ready(d, c, text, p.g, k) && p.g.tops[k] != NULL && StateOf(d, p.g, k) != d.lr.final
    requires p.g.split == NULL ==> d.Listed(i) != []
    requires ToFollow(d, StateOf(d, p.g, k), TokenAt(text, p.g.pos), i)
    requires Follow(d, sup, text, p, k, i, fuel) == Ends(p')
    ensures Ready(d, c, text, p'.g, k) && p'.g.split != NULL && p'.g.pos == p.g.pos
    ensures d.lr.Sized() && IsLive(p'.g, k) && p'.g.cells[p'.g.tops[k]].lr == StateOf(d, p.g, k) < d.lr.NStates()
  {
    hide ConflictsChecked, Lexed, Cyclic, Safe, Progress, Settled, SameStack, d.Listed, InConflict, ToFollow, Follow;
    FollowKeeps(d, c, sup, text, p, k, i, fuel);
    ProgressPart(d, text, p.g, p'.g, k);
    StateFacts(d, c, text, p'.g, k);
  }

  lemma SettledBefore(d: GlrTables, text: seq<nat>, g: Glr, g': Glr, n: nat)
    requires Progress(d, text, g, g', n) && n < |g.tops| && Settled(d, text, g', n)
    requires forall j: nat | j < n :: Settled(d, text, g, j)
    ensures |g.tops| <= |g'.tops| && g'.pos == g.pos && forall j: nat | j < n + 1 :: Settled(d, text, g', j)
  {
    forall j: nat | j < n + 1
      ensures Settled(d, text, g', j)
    {
      if j < n {
        assert SameStack(g, g', j);
        SettledStays(d, text, g, g', j);
      }
    }
  }

  /** The same on values, for the stacks from number `k` on. */
  function ProcessFrom(d: GlrTables, sup: Supply, text: seq<nat>, p: Point, k: nat, rounds: nat, fuel: nat): Result
    decreases rounds
  {
    if k >= |p.g.tops| then Ends(p)
    else if rounds == 0 then Unfinished
    else
      match Process(d, sup, text, p, k, fuel)
      case Ends(p') => ProcessFrom(d, sup, text, p', k + 1, rounds - 1, fuel)
      case other => other
  }

  lemma {:induction false} ProcessFromAccounted(d: GlrTables, sup: Supply, text: seq<nat>, p: Point, k: nat,
                                                rounds: nat, fuel: nat)
    ensures Accounted(sup, p.m.asked, ProcessFrom(d, sup, text, p, k, rounds, fuel))
    decreases rounds
  {
    hide Process;
    if k < |p.g.tops| && rounds > 0 {
      ProcessAccounted(d, sup, text, p, k, fuel);
      var v := Process(d, sup, text, p, k, fuel);
      if v.Ends? {
        ProcessFromAccounted(d, sup, text, v.p, k + 1, rounds - 1, fuel);
        AccountedOn(sup, p.m.asked, v.p.m.asked, ProcessFrom(d, sup, text, v.p, k + 1, rounds - 1, fuel));
      }
    }
  }

  /** When all stacks have been processed, every one is dead or about to shift. */
  lemma {:induction false} ProcessFromKeeps(d: GlrTables, c: Certificate, sup: Supply, text: seq<nat>, p: Point, k: nat,
                                            rounds: nat, fuel: nat)
    requires ConflictsChecked(d, c) && Lexed(d, text) && !Cyclic(c.g) && Safe(d, c, text, p.g)
    requires k <= |p.g.tops| && (p.g.split != NULL || (k == 0 && InConflict(d, text, p.g, 0)))
    requires forall j: nat | j < k :: Settled(d, text, p.g, j)
    requires ProcessFrom(d, sup, text, p, k, rounds, fuel).Ends?
    ensures var g := ProcessFrom(d, sup, text, p, k, rounds, fuel).p.g;
      && Safe(d, c, text, g) && g.split != NULL && g.pos == p.g.pos
      && forall j: nat | j < |g.tops| :: Settled(d, text, g, j)
    decreases rounds
  {
    hide ConflictsChecked, Lexed, Cyclic, Safe, Progress, Settled, Process, InConflict;
    if p.g.split == NULL { ConflictLive(d, text, p.g, 0); }
    if k < |p.g.tops| {
      var v := Process(d, sup, text, p, k, fuel);
      ProcessKeeps(d, c, sup, text, p, k, fuel);
      SettledBefore(d, text, p.g, v.p.g, k);
      ProcessFromKeeps(d, c, sup, text, v.p, k + 1, rounds - 1, fuel);
    }
  }

  /** The loop of `yyparse` over all stacks, including those that are split off on the way. */
  method ProcessAll(s: GlrStack, heap: Heap, d: GlrTables, token: nat, fuel: nat, ghost c: Certificate,
                    ghost text: seq<nat>)
    returns (outcome: Outcome)
    requires ConflictsChecked(d, c) && Lexed(d, text) && !Cyclic(c.g) && token == TokenAt(text, s.posn)
    requires Working(d, c, text, s) && (s.Abs().split != NULL || InConflict(d, text, s.Abs(), 0))
    modifies s, s.items, heap
    ensures s.items == old(s.items) || fresh(s.items)
    ensures s.Shape()
    ensures EndsAs(outcome, Here(s, heap), ProcessFrom(d, Sup(s, heap), text, old(Here(s, heap)), 0, fuel, fuel))
    ensures outcome.Done? ==> Working(d, c, text, s) && s.posn == old(s.posn) && s.Abs().split != NULL
    ensures outcome.Done? ==> forall j: nat | j < |s.tops| :: Settled(d, text, s.Abs(), j)
  {
    hide ConflictsChecked, Lexed, Cyclic, Safe, CellsOf, RefsOf, Progress, Settled, ItemPoints, Process;
    ghost var p0, sup := Here(s, heap), Sup(s, heap);
    var k: nat := 0;
    var rounds: nat := fuel;
    while k < |s.tops|
      invariant s.items == old(s.items) || fresh(s.items)
      invariant Working(d, c, text, s) && s.posn == old(s.posn) && k <= |s.tops|
      invariant s.Abs().split != NULL || (k == 0 && InConflict(d, text, s.Abs(), 0))
      invariant forall j: nat | j < k :: Settled(d, text, s.Abs(), j)
      invariant ProcessFrom(d, sup, text, p0, 0, fuel, fuel) ==
        ProcessFrom(d, sup, text, Here(s, heap), k, rounds, fuel)
      decreases rounds
    {
      if rounds == 0 {
        return OutOfFuel;
      }
      rounds := rounds - 1;
      ghost var p := Here(s, heap);
      outcome := ProcessOneStack(s, heap, d, k, token, fuel, c, text);
      if !outcome.Done? {
        return;
      }
      ProcessKeeps(d, c, sup, text, p, k, fuel);
      SettledBefore(d, text, p.g, s.Abs(), k);
      k := k + 1;
    }
    outcome := Done;
  }

  /** The state to shift to. */
  function TargetOf(d: GlrTables, text: seq<nat>, g: Glr, k: nat): nat {
    if d.lr.Sized() && IsLive(g, k) && g.cells[g.tops[k]].lr < d.lr.NStates() &&
      d.lr.Action(g.cells[g.tops[k]].lr, TokenAt(text, g.pos)).ShiftTo?
      then d.lr.Action(g.cells[g.tops[k]].lr, TokenAt(text, g.pos)).state
    else 0
  }

  function Targets(d: GlrTables, text: seq<nat>, g: Glr): (targets: seq<nat>)
    ensures |targets| == |g.tops|
    ensures forall k | 0 <= k < |g.tops| :: targets[k] == TargetOf(d, text, g, k)
  {
    seq(|g.tops|, k requires 0 <= k < |g.tops| => TargetOf(d, text, g, k))
  }

  lemma AllSettledShift(d: GlrTables, text: seq<nat>, g: Glr)
    requires forall j: nat | j < |g.tops| :: g.tops[j] != NULL && Settled(d, text, g, j)
    ensures AllShift(d, text, g, Targets(d, text, g))
  {
    forall k | 0 <= k < |g.tops|
      ensures CanShift(d, text, g, k, Targets(d, text, g)[k])
    {
      assert Settled(d, text, g, k);
      var s' :| CanShift(d, text, g, k, s');
    }
  }

  /** What the shifting loop relies on at stack `k`. */
  lemma ShiftStep(d: GlrTables, c: Certificate, text: seq<nat>, g: Glr, mark: Ref, k: nat)
    requires ConflictsChecked(d, c) && Lexed(d, text) && Inv(d.lr, c, text, g) && g.split != NULL
    requires Marked(d.lr, c, text, g, mark)
    requires AllShift(d, text, g, Targets(d, text, g)) && k < |g.tops|
    ensures var g' := ShiftFirst(g, text, Targets(d, text, g), k);
      var g'' := ShiftFirst(g, text, Targets(d, text, g), k + 1);
      && IsLive(g', k) && CanShift(d, text, g', k, Targets(d, text, g)[k])
      && g'' == ShiftToken(g', k, Targets(d, text, g)[k], g.pos + 1, TokenAt(text, g.pos))
      && forall i | IsState(g''.cells, i) :: !g''.cells[i].sem.Clobbered?
  {
    hide Core, Marked, TopsAt, ConflictsChecked, Lexed, Inv, TargetOf, AllShift;
    var targets := Targets(d, text, g);
    ShiftFirstKeeps(d, c, text, g, mark, targets, k);
    ShiftFirstKeeps(d, c, text, g, mark, targets, k + 1);
    var g' := ShiftFirst(g, text, targets, k);
    var g'' := ShiftFirst(g, text, targets, k + 1);
    SettledAt(d, text, g, targets, k);
    assert g'.tops[k..][0] == g.tops[k..][0];
    assert g'.cells[g.tops[k]] == g.cells[g.tops[k]];
    NoneClobbered(d, c, text, g'');
  }

  lemma SettledAt(d: GlrTables, text: seq<nat>, g: Glr, targets: seq<nat>, k: nat)
    requires |targets| == |g.tops| && AllShift(d, text, g, targets) && k < |g.tops|
    ensures CanShift(d, text, g, k, targets[k])
  {
  }

  lemma NoneClobbered(d: GlrTables, c: Certificate, text: seq<nat>, g: Glr)
    requires Core(d.lr, c, text, g)
    ensures forall i | IsState(g.cells, i) :: !g.cells[i].sem.Clobbered?
  {
    hide Forest;
    forall i | IsState(g.cells, i)
      ensures !g.cells[i].sem.Clobbered?
    {
      NoClobber(d.lr, c, text, g.cells, i);
    }
  }

  /** The shifting loop of `yyparse` on values, from stack `k` on: every shift reserves space. */
  function Shifting(sup: Supply, text: seq<nat>, g: Glr, targets: seq<nat>, k: nat, m: Memory): Result
    requires k <= |targets| == |g.tops|
    decreases |targets| - k
  {
    if k == |targets| then Ends(Point(ShiftAll(g, text, targets), m))
    else
      match Reserved(sup, ShiftFirst(g, text, targets, k + 1), m)
      case Ends(p) => Shifting(sup, text, g, targets, k + 1, p.m)
      case other => other
  }

  lemma {:induction false} ShiftingAccounted(sup: Supply, text: seq<nat>, g: Glr, targets: seq<nat>, k: nat, m: Memory)
    requires k <= |targets| == |g.tops|
    ensures Accounted(sup, m.asked, Shifting(sup, text, g, targets, k, m))
    ensures var r := Shifting(sup, text, g, targets, k, m);
      if r.Ends? then r.p.g == ShiftAll(g, text, targets) else r.NoRoom?
    decreases |targets| - k
  {
    hide Reserved, ShiftFirst;
    if k < |targets| {
      var v := Reserved(sup, ShiftFirst(g, text, targets, k + 1), m);
      ReservedAccounted(sup, ShiftFirst(g, text, targets, k + 1), m);
      if v.Ends? {
        ShiftingAccounted(sup, text, g, targets, k + 1, v.p.m);
        AccountedOn(sup, m.asked, v.p.m.asked, Shifting(sup, text, g, targets, k + 1, v.p.m));
      }
    }
  }

  /** The shifting loop of `yyparse`: every stack shifts the token. */
  method ShiftEverywhere(s: GlrStack, heap: Heap, d: GlrTables, token: nat, ghost c: Certificate, ghost text: seq<nat>)
    returns (ok: bool)
    requires ConflictsChecked(d, c) && Lexed(d, text) && token == TokenAt(text, s.posn)
    requires Working(d, c, text, s) && s.Abs().split != NULL
    requires forall j: nat | j < |s.tops| :: s.Abs().tops[j] != NULL && Settled(d, text, s.Abs(), j)
    modifies s, s.items, heap
    ensures s.items == old(s.items) || fresh(s.items)
    ensures AllShift(d, text, old(s.Abs()), Targets(d, text, old(s.Abs())))
    ensures s.Shape()
    ensures Shifting(Sup(s, heap), text, old(s.Abs()), Targets(d, text, old(s.Abs())), 0, old(Here(s, heap)).m) ==
      if ok then Ends(Here(s, heap)) else NoRoom(Here(s, heap))
    ensures ok ==> Working(d, c, text, s) && s.posn == old(s.posn) + 1
    ensures ok ==> s.Abs() == ShiftAll(old(s.Abs()), text, Targets(d, text, old(s.Abs())))
  {
    hide ConflictsChecked, Lexed, Safe, CellsOf, RefsOf, Settled, ItemPoints, Inv, Marked, AllShift, ShiftFirst,
      Targets;
    ghost var g, m, sup := s.Abs(), Here(s, heap).m, Sup(s, heap);
    ghost var mark: Ref :| Inv(d.lr, c, text, g) && Marked(d.lr, c, text, g, mark) by { SafeMark(d, c, text, g); }
    AllSettledShift(d, text, g);
    ghost var targets := Targets(d, text, g);
    FirstShift(g, text, targets);
    ShiftAllKeeps(d, c, text, g, targets);
    for k := 0 to |s.tops|
      invariant s.items == old(s.items) || fresh(s.items)
      invariant Roomy(s) && s.posn == g.pos && |s.tops| == |g.tops|
      invariant s.Abs() == ShiftFirst(g, text, targets, k)
      invariant Shifting(sup, text, g, targets, 0, m) == Shifting(sup, text, g, targets, k, Here(s, heap).m)
    {
      ok := ShiftOne(s, heap, d, k, token, c, text, g, mark);
      if !ok {
        return;
      }
    }
    s.posn := s.posn + 1;
    ok := true;
  }

  /** The arena has space for two more items. */
  ghost predicate Roomy(s: GlrStack)
    reads s, s.items
  {
    s.Shape() && s.spaceLeft >= HEADROOM && 2 * HEADROOM <= s.items.Length <= s.maxDepth
  }

  /** The body of that loop. */
  method ShiftOne(s: GlrStack, heap: Heap, d: GlrTables, k: nat, token: nat, ghost c: Certificate, ghost text: seq<nat>,
                  ghost g: Glr, ghost mark: Ref)
    returns (ok: bool)
    requires ConflictsChecked(d, c) && Lexed(d, text) && Inv(d.lr, c, text, g) && g.split != NULL
    requires Marked(d.lr, c, text, g, mark)
    requires AllShift(d, text, g, Targets(d, text, g)) && token == TokenAt(text, g.pos)
    requires Roomy(s) && s.posn == g.pos && k < |s.tops| == |g.tops|
    requires s.Abs() == ShiftFirst(g, text, Targets(d, text, g), k)
    modifies s, s.items, heap
    ensures s.items == old(s.items) || fresh(s.items)
    ensures s.Shape() && s.Abs() == ShiftFirst(g, text, Targets(d, text, g), k + 1)
    ensures Reserved(Sup(s, heap), s.Abs(), old(Here(s, heap)).m) ==
      if ok then Ends(Here(s, heap)) else NoRoom(Here(s, heap))
    ensures ok ==> Roomy(s) && s.posn == g.pos && |s.tops| == |g.tops|
  {
    hide ConflictsChecked, Lexed, CellsOf, RefsOf, ItemPoints, Inv, Marked, AllShift, ShiftFirst, Targets;
    ShiftStep(d, c, text, g, mark, k);
    s.StateAt(s.tops[k]);
    var state := s.items[s.tops[k] - s.base].lr;
    var target := match d.lr.Action(state, token) case ShiftTo(x) => x case _ => 0;
    s.PushState(k, target, s.posn + 1, Leaf(token));
    ok := s.Reserve(heap);
  }

  lemma SafeMark(d: GlrTables, c: Certificate, text: seq<nat>, g: Glr)
    requires Safe(d, c, text, g)
    ensures exists mark :: Inv(d.lr, c, text, g) && Marked(d.lr, c, text, g, mark)
  {
  }

  lemma FirstShift(g: Glr, text: seq<nat>, targets: seq<nat>)
    requires |targets| == |g.tops|
    ensures ShiftFirst(g, text, targets, 0) == g
    ensures ShiftAll(g, text, targets) == ShiftFirst(g, text, targets, |targets|).(pos := g.pos + 1)
  {
  }

  lemma SurvivorsSettled(d: GlrTables, c: Certificate, text: seq<nat>, g: Glr)
    requires Safe(d, c, text, g) && g.split != NULL && forall j: nat | j < |g.tops| :: Settled(d, text, g, j)
    ensures var g' := g.(tops := Survivors(g.tops));
      && Safe(d, c, text, g') && forall j: nat | j < |g'.tops| :: g'.tops[j] != NULL && Settled(d, text, g', j)
  {
    hide Inv, Marked, Survivors;
    var mark :| Inv(d.lr, c, text, g) && Marked(d.lr, c, text, g, mark);
    SurvivorsKeep(d.lr, c, text, g);
    MarkedSurvivors(d.lr, c, text, g, mark);
    var g' := g.(tops := Survivors(g.tops));
    SafeBy(d, c, text, g', mark);
    forall j: nat | j < |g'.tops|
      ensures g'.tops[j] != NULL && Settled(d, text, g', j)
    {
      assert g'.tops[j] in Survivors(g.tops);
      var i: nat :| i < |g.tops| && g.tops[i] == g'.tops[j];
      assert Settled(d, text, g, i);
      var s :| CanShift(d, text, g, i, s);
      assert CanShift(d, text, g', j, s);
    }
  }

  /** One round of the nondeterministic loop of `yyparse` on values: reduce all stacks, drop the dead ones, and
      shift the token on all others. */
  function RoundOn(d: GlrTables, sup: Supply, text: seq<nat>, p: Point, fuel: nat): Result {
    match ProcessFrom(d, sup, text, p, 0, fuel, fuel)
    case Ends(p') =>
      var g := p'.g.(tops := Survivors(p'.g.tops));
      if g.tops == [] then NoneLeft(Point(g, p'.m)) else Shifting(sup, text, g, Targets(d, text, g), 0, p'.m)
    case other => other
  }

  lemma RoundAccounted(d: GlrTables, sup: Supply, text: seq<nat>, p: Point, fuel: nat)
    ensures Accounted(sup, p.m.asked, RoundOn(d, sup, text, p, fuel))
  {
    hide ProcessFrom, Shifting, Survivors;
    ProcessFromAccounted(d, sup, text, p, 0, fuel, fuel);
    var v := ProcessFrom(d, sup, text, p, 0, fuel, fuel);
    if v.Ends? {
      var g := v.p.g.(tops := Survivors(v.p.g.tops));
      ShiftingAccounted(sup, text, g, Targets(d, text, g), 0, v.p.m);
      AccountedOn(sup, p.m.asked, v.p.m.asked, Shifting(sup, text, g, Targets(d, text, g), 0, v.p.m));
    }
  }

  /** After a round all stacks are alive, and the invariant holds. */
  lemma RoundKeeps(d: GlrTables, c: Certificate, sup: Supply, text: seq<nat>, p: Point, fuel: nat)
    requires ConflictsChecked(d, c) && Lexed(d, text) && !Cyclic(c.g) && Safe(d, c, text, p.g)
    requires (p.g.split != NULL || InConflict(d, text, p.g, 0)) && RoundOn(d, sup, text, p, fuel).Ends?
    ensures var g := RoundOn(d, sup, text, p, fuel).p.g;
      Safe(d, c, text, g) && g.split != NULL && forall j | 0 <= j < |g.tops| :: IsLive(g, j)
  {
    hide ConflictsChecked, Lexed, Cyclic, Safe, Settled, AllShift, ProcessFrom, Shifting, ShiftAll, Survivors,
      InConflict, Targets;
    ProcessFromKeeps(d, c, sup, text, p, 0, fuel, fuel);
    var v := ProcessFrom(d, sup, text, p, 0, fuel, fuel);
    SurvivorsSettled(d, c, text, v.p.g);
    var g := v.p.g.(tops := Survivors(v.p.g.tops));
    AllSettledShift(d, text, g);
    ShiftAllKeeps(d, c, text, g, Targets(d, text, g));
    ShiftingAccounted(sup, text, g, Targets(d, text, g), 0, v.p.m);
    ShiftedLive(d, c, text, g);
    SafeTops(d, c, text, ShiftAll(g, text, Targets(d, text, g)));
  }

  /** One round of the nondeterministic loop of `yyparse`. */
  method Round(s: GlrStack, heap: Heap, d: GlrTables, token: nat, fuel: nat, ghost c: Certificate, ghost text: seq<nat>)
    returns (outcome: Outcome)
    requires ConflictsChecked(d, c) && Lexed(d, text) && !Cyclic(c.g) && token == TokenAt(text, s.posn)
    requires Working(d, c, text, s) && (s.Abs().split != NULL || InConflict(d, text, s.Abs(), 0))
    modifies s, s.items, heap
    ensures s.items == old(s.items) || fresh(s.items)
    ensures s.Shape() && EndsAs(outcome, Here(s, heap), RoundOn(d, Sup(s, heap), text, old(Here(s, heap)), fuel))
    ensures outcome.Done? ==> Working(d, c, text, s) && s.Abs().split != NULL && s.posn == old(s.posn) + 1
    ensures outcome.Done? ==> s.tops != [] && forall j | 0 <= j < |s.tops| :: IsLive(s.Abs(), j)
    ensures outcome.Done? ==> var r := ProcessFrom(d, Sup(s, heap), text, old(Here(s, heap)), 0, fuel, fuel);
      && r.Ends?
      && var g := r.p.g.(tops := Survivors(r.p.g.tops));
      && AllShift(d, text, g, Targets(d, text, g)) && s.Abs() == ShiftAll(g, text, Targets(d, text, g))
  {
    hide ConflictsChecked, Lexed, Cyclic, Safe, CellsOf, RefsOf, Settled, ItemPoints, Survivors, InConflict, ShiftFirst,
      Targets, AllShift, ProcessFrom, Shifting;
    outcome := ProcessAll(s, heap, d, token, fuel, c, text);
    if !outcome.Done? {
      return;
    }
    ghost var g := s.Abs();
    SurvivorsSettled(d, c, text, g);
    s.RemoveDeletes();
    if |s.tops| == 0 {
      return AllDead;
    }
    ghost var g1 := s.Abs();
    var ok := ShiftEverywhere(s, heap, d, token, c, text);
    if !ok {
      return Exhausted;
    }
    ShiftedLive(d, c, text, g1);
    SafeTops(d, c, text, s.Abs());
  }

  lemma {:induction false} ShiftedTop(g: Glr, text: seq<nat>, targets: seq<nat>, n: nat, j: nat)
    requires j < n <= |targets| == |g.tops|
    ensures var g' := ShiftFirst(g, text, targets, n); 0 <= g'.tops[j] < |g'.cells|
    decreases n
  {
    if j < n - 1 { ShiftedTop(g, text, targets, n - 1, j); }
  }

  lemma ShiftedLive(d: GlrTables, c: Certificate, text: seq<nat>, g: Glr)
    ensures var g' := ShiftAll(g, text, Targets(d, text, g));
      g'.split == g.split && forall j: nat | j < |g'.tops| :: g'.tops[j] != NULL
  {
    var targets := Targets(d, text, g);
    forall j: nat | j < |g.tops|
      ensures ShiftAll(g, text, targets).tops[j] != NULL
    {
      ShiftedTop(g, text, targets, |targets|, j);
    }
  }

  lemma SafeTops(d: GlrTables, c: Certificate, text: seq<nat>, g: Glr)
    requires Safe(d, c, text, g)
    ensures forall j | 0 <= j < |g.tops| && g.tops[j] != NULL :: IsLive(g, j)
  {
    hide Forest, Marked, SplitOk;
  }
}
