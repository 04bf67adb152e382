/** The parser with lookahead correction: where a reduction is about to be made in a state that looks at the token,
    `yy_lac` is asked first whether the token can be shifted in the end. */
module LacParser {
  import opened Grammar
  import opened LrTables
  import opened ParserMachine
  import opened Lac
  import Yacc

  /** A configuration with `yy_lac_established`. */
  datatype Guarded = Guarded(k: Config, established: bool)

  /** The token has an entry of its own in the state, so that `yydefact` is not consulted. */
  predicate Listed(t: Tables, s: nat, token: nat)
    requires t.Sized() && s < t.NStates()
  {
    var i := t.pact[s] + token;
    !t.IsDefaulted(s) && 0 <= i <= t.last && t.check[i] == token
  }

  /** `YY_LAC_ESTABLISH` is reached with no context established. */
  predicate Asks(t: Tables, x: Guarded)
    requires t.Sized() && |x.k.ss| > 0 && x.k.Top() < t.NStates()
  {
    && !x.established && !t.IsDefaulted(x.k.Top())
    && var (k, a) := Decide(t, x.k);
    a.ReduceBy? || (a.Fail? && !Listed(t, x.k.Top(), k.look.token))
  }

  /** Parsing on with the token leads to a shift of it. */
  ghost predicate Promised(t: Tables, c: Certificate, ss: seq<nat>, token: nat, n: nat) {
    Live(t, c, ss, token) && Explore(t, c, ss, token, n) == Shifts
  }

  /** What the result of `yy_lac` says of the token: 0 that it is shifted in the end, 1 that it is not, or that it is
      undefined. */
  ghost predicate Answers(t: Tables, c: Certificate, k: Config, status: nat)
    requires k.look.Tok?
  {
    && (status == 0 ==> exists n: nat :: Promised(t, c, k.ss, k.look.token, n))
    && (k.look.token == t.undefTok ==> status == 1)
    && (status == 1 && k.look.token != t.undefTok ==> exists n: nat :: Rejected(t, c, k.ss, k.look.token, n))
  }

  /** The result itself, the fate of the token being known after `bound` actions, and the capacity of the scratch array
      before and after. */
  ghost predicate Told(t: Tables, c: Certificate, lim: Limits, ss: seq<nat>, token: nat, bound: nat, capacity: nat,
                       capacity': nat, status: nat) {
    && Live(t, c, ss, token)
    && if token == t.undefTok then status == 1
       else
         match Fares(t, c, lim, ss, 0, capacity, token, bound)
         case Enough(size) =>
           capacity' == size && status == (if Explore(t, c, ss, token, bound) == Shifts then 0 else 1)
         case TooDeep => status == 2 && Overflows(t, c, ss, token, bound, lim.maxDepth)
         case Refused(size) => status == 2 && !lim.allocates(size) && capacity < size <= lim.maxDepth
  }

  ghost predicate Rejected(t: Tables, c: Certificate, ss: seq<nat>, token: nat, n: nat) {
    Live(t, c, ss, token) && Explore(t, c, ss, token, n) == Errs
  }

  /** The rest of a trip once the tables have been consulted and, if `asks` is set, `yy_lac` has had the result
      `status`; 2 stands for want of memory. */
  function Carried(t: Tables, maxDepth: nat, k: Config, a: Action, established: bool, asks: bool, status: nat,
                   allocates: bool): Guarded
    requires t.Sized() && |k.ss| == |k.vs| > 0 && (a.ShiftTo? ==> k.look.Tok?)
    requires a.ReduceBy? ==> t.IsRule(a.rule) && t.r2[a.rule] < |k.ss|
  {
    if asks && status == 2 then Guarded(k.(status := Exhausted), true)
    else if asks && status == 1 then Guarded(Recover(t, maxDepth, k, allocates), false)
    else
      match a
      case ShiftTo(s) => Guarded(Shift(t, maxDepth, k, s, allocates), false)
      case ReduceBy(r) => Guarded(Reduce(t, maxDepth, k, r, allocates), established || asks)
      case Fail => Guarded(Recover(t, maxDepth, k, allocates), false)
  }

  /** One trip around the loop. */
  ghost function Trip(t: Tables, c: Certificate, maxDepth: nat, x: Guarded, status: nat, allocates: bool): Guarded
    requires CanStep(t, c, x.k)
  {
    Decided(t, c, x.k);
    var (k, a) := Decide(t, x.k);
    Carried(t, maxDepth, k, a, x.established, Asks(t, x), status, allocates)
  }

  /** A trip with an answer of `yy_lac` that is right. */
  ghost predicate Trips(t: Tables, c: Certificate, maxDepth: nat, x: Guarded, status: nat, allocates: bool, x': Guarded)
    {
    && CanStep(t, c, x.k)
    && (Decided(t, c, x.k); Asks(t, x) ==> status <= 2 && Answers(t, c, Decide(t, x.k).0, status))
    && x' == Trip(t, c, maxDepth, x, status, allocates)
  }

  /** While a context is established, the token in hand will be shifted. A token is in hand without one only when it
      has been kept by error recovery. */
  ghost predicate Kept(t: Tables, c: Certificate, x: Guarded) {
    && Sound(t, c, x.k)
    && (x.k.status.Running? && x.established ==>
        x.k.look.Tok? && exists n: nat :: Promised(t, c, x.k.ss, x.k.look.token, n))
    && (x.k.status.Running? && x.k.look.Tok? && !x.established ==> x.k.errStatus == 3)
  }

  /** A reduction on a token that will be shifted brings the shift nearer; nothing else but the shift can happen. */
  lemma PromiseStep(t: Tables, c: Certificate, ss: seq<nat>, token: nat, n: nat)
    requires Promised(t, c, ss, token, n)
    ensures n > 0 && Act(t, c, ss, token) != Errs
    ensures var a := Act(t, c, ss, token); a.Pending? ==> Promised(t, c, a.ss, token, n - 1)
  {
    hide Live, Act;
    LiveReduce(t, c, ss, token);
    PendingLive(t, c, ss, token);
  }

  lemma PendingLive(t: Tables, c: Certificate, ss: seq<nat>, token: nat)
    requires Live(t, c, ss, token)
    ensures var a := Act(t, c, ss, token); a.Pending? ==> Live(t, c, a.ss, token)
  {
    hide Live;
    LiveReduce(t, c, ss, token);
  }

  /** Unless the token is turned down or memory runs out, the parser does what it does without the correction. */
  lemma TripPlain(t: Tables, c: Certificate, maxDepth: nat, x: Guarded, status: nat, allocates: bool)
    requires CanStep(t, c, x.k)
    ensures x.k.Top() < t.NStates() && t.Sized()
    ensures !Asks(t, x) || (status != 1 && status != 2) ==>
      Trip(t, c, maxDepth, x, status, allocates).k == Advance(t, c, maxDepth, x.k, allocates)
  {
    hide Checked, IsPath, Push, RecoverShift, ActionSound;
    Decided(t, c, x.k);
    SoundParts(t, c, x.k);
  }

  lemma TripSound(t: Tables, c: Certificate, maxDepth: nat, x: Guarded, status: nat, allocates: bool)
    requires CanStep(t, c, x.k)
    ensures Sound(t, c, Trip(t, c, maxDepth, x, status, allocates).k)
  {
    hide Checked, IsPath, Derivations, Roots, Push, Recover, Reduce, Shift, ActionSound, Asks;
    Decided(t, c, x.k);
    TripPlain(t, c, maxDepth, x, status, allocates);
    AdvanceSound(t, c, maxDepth, x.k, allocates);
    RecoverSound(t, c, maxDepth, Decide(t, x.k).0, allocates);
  }

  /** After an error the status is 3, unless the parser has given up. */
  lemma RecoverStatus(t: Tables, maxDepth: nat, k: Config, allocates: bool)
    requires t.Sized() && |k.ss| == |k.vs| > 0
    ensures var k' := Recover(t, maxDepth, k, allocates); k'.status.Running? ==> k'.errStatus == 3
  {
    hide Push, ErrorHeight;
  }

  /** The invariant survives every trip. */
  lemma TripKeeps(t: Tables, c: Certificate, maxDepth: nat, x: Guarded, status: nat, allocates: bool, x': Guarded)
    requires Kept(t, c, x) && x.k.status.Running? && Trips(t, c, maxDepth, x, status, allocates, x')
    ensures Kept(t, c, x')
  {
    hide Checked, IsPath, Sound, Push, Recover, ActionSound, Live, Explore, t.Sized;
    Decided(t, c, x.k);
    TripSound(t, c, maxDepth, x, status, allocates);
    SoundParts(t, c, x.k);
    CheckedMatches(t, c);
    var (k, a) := Decide(t, x.k);
    SoundParts(t, c, k);
    RecoverStatus(t, maxDepth, k, allocates);
    if a.ReduceBy? && x'.k.status.Running? && x'.established {
      var n: nat :| Promised(t, c, k.ss, k.look.token, n);
      StepMatches(t, c, maxDepth, k, allocates);
      PromiseStep(t, c, k.ss, k.look.token, n);
      assert Promised(t, c, x'.k.ss, x'.k.look.token, n - 1);
    }
  }

  /** The trip is a reduction on a token in hand. */
  ghost predicate ReducesOn(t: Tables, c: Certificate, x: Guarded, status: nat, token: nat)
    requires CanStep(t, c, x.k)
  {
    Decided(t, c, x.k);
    var (k, a) := Decide(t, x.k);
    a.ReduceBy? && k.look == Tok(token) && (Asks(t, x) ==> status == 0)
  }

  /** Error recovery has kept the token, and the state reduces without looking at it. */
  predicate Exempt(t: Tables, x: Guarded) {
    && x.k.errStatus >= 3 && !x.established
    && t.Sized() && x.k.ss != [] && x.k.Top() < t.NStates() && t.IsDefaulted(x.k.Top())
  }

  /** No other reduction is made on a token in hand that is not shifted in the end. */
  lemma ReducesPromised(t: Tables, c: Certificate, maxDepth: nat, x: Guarded, status: nat, allocates: bool, x': Guarded,
                        token: nat)
    requires Kept(t, c, x) && x.k.status.Running? && !Exempt(t, x)
    requires Trips(t, c, maxDepth, x, status, allocates, x') && ReducesOn(t, c, x, status, token)
    ensures exists n: nat :: Promised(t, c, x.k.ss, token, n)
    ensures x'.k.status.Running? ==> x'.established
  {
    hide Checked, IsPath, Sound, Push, ActionSound, Live, Explore, t.Sized, Settle;
    Decided(t, c, x.k);
    SoundParts(t, c, x.k);
    CheckedMatches(t, c);
  }

  /** The token in hand is shifted. */
  ghost predicate ShiftsIt(t: Tables, x: Guarded, x': Guarded) {
    && x.k.look.Tok? && t.Sized() && x.k.ss != [] && x.k.Top() < t.NStates()
    && exists s :: t.Action(x.k.Top(), x.k.look.token) == ShiftTo(s) && x'.k.ss == x.k.ss + [s]
  }

  /** A trip with a promised token: the shift, or a reduction that brings it nearer; never an error. */
  lemma PromisedTrip(t: Tables, c: Certificate, maxDepth: nat, x: Guarded, status: nat, allocates: bool, x': Guarded,
                     n: nat)
    requires Kept(t, c, x) && x.k.status.Running? && x.established
    requires Promised(t, c, x.k.ss, x.k.look.token, n) && Trips(t, c, maxDepth, x, status, allocates, x')
    ensures n > 0 && x'.k.nerrs == x.k.nerrs
    ensures || x'.k.status.Exhausted? || ShiftsIt(t, x, x')
            || (x'.k.status.Running? && x'.established && x'.k.look == x.k.look
                && Promised(t, c, x'.k.ss, x'.k.look.token, n - 1))
  {
    hide Checked, IsPath, Sound, ActionSound, Live, Explore, t.Sized, Recover;
    Decided(t, c, x.k);
    SoundParts(t, c, x.k);
    CheckedMatches(t, c);
    PromiseStep(t, c, x.k.ss, x.k.look.token, n);
    StepMatches(t, c, maxDepth, x.k, allocates);
    TripPlain(t, c, maxDepth, x, status, allocates);
  }

  /** A run of the parser with lookahead correction, whatever the allocators do. */
  ghost predicate LacRun(t: Tables, c: Certificate, maxDepth: nat, xs: seq<Guarded>) {
    xs != [] && forall i: nat | i + 1 < |xs| :: TripsTo(t, c, maxDepth, xs[i], xs[i + 1])
  }

  ghost predicate TripsTo(t: Tables, c: Certificate, maxDepth: nat, x: Guarded, x': Guarded) {
    exists status: nat, allocates: bool :: Trips(t, c, maxDepth, x, status, allocates, x')
  }

  lemma {:induction false} RunKeeps(t: Tables, c: Certificate, maxDepth: nat, xs: seq<Guarded>, i: nat)
    requires LacRun(t, c, maxDepth, xs) && i < |xs| && Kept(t, c, xs[0])
    ensures Kept(t, c, xs[i])
    decreases i
  {
    hide Kept, Trips;
    if i > 0 {
      RunKeeps(t, c, maxDepth, xs, i - 1);
      assert TripsTo(t, c, maxDepth, xs[i - 1], xs[i - 1 + 1]);
      var status: nat, allocates: bool :| Trips(t, c, maxDepth, xs[i - 1], status, allocates, xs[i]);
      Steps(t, c, maxDepth, xs[i - 1], status, allocates, xs[i]);
      TripKeeps(t, c, maxDepth, xs[i - 1], status, allocates, xs[i]);
    }
  }

  lemma Steps(t: Tables, c: Certificate, maxDepth: nat, x: Guarded, status: nat, allocates: bool, x': Guarded)
    requires Trips(t, c, maxDepth, x, status, allocates, x')
    ensures x.k.status.Running?
  {
  }

  /** From configuration `i` on the token is shifted, or memory runs out, before number `i + n + 1`; until then it stays
      in hand, and no error is met. */
  ghost predicate ShiftedBy(t: Tables, xs: seq<Guarded>, i: nat, n: nat, token: nat) {
    exists j: nat :: i <= j < i + n && DoneAt(t, xs, j, token) && Waits(xs, i, j, token)
  }

  ghost predicate DoneAt(t: Tables, xs: seq<Guarded>, j: nat, token: nat) {
    && j + 1 < |xs|
    && (xs[j + 1].k.status.Exhausted? || (xs[j].k.look == Tok(token) && ShiftsIt(t, xs[j], xs[j + 1])))
  }

  predicate Waits(xs: seq<Guarded>, i: nat, j: nat, token: nat) {
    i <= j < |xs| && forall l | i < l <= j :: xs[l].k.look == Tok(token) && xs[l].k.nerrs == xs[i].k.nerrs
  }

  /** One trip more before. */
  lemma ShiftedOn(t: Tables, xs: seq<Guarded>, i: nat, n: nat, token: nat)
    requires n > 0 && i + 1 < |xs| && ShiftedBy(t, xs, i + 1, n - 1, token)
    requires xs[i + 1].k.look == Tok(token) && xs[i + 1].k.nerrs == xs[i].k.nerrs
    ensures ShiftedBy(t, xs, i, n, token)
  {
    hide ShiftsIt;
    var j: nat :| i + 1 <= j < i + 1 + (n - 1) && DoneAt(t, xs, j, token) && Waits(xs, i + 1, j, token);
    assert Waits(xs, i, j, token);
  }

  /** A promise is kept by every run that is long enough. */
  lemma {:induction false} PromiseKept(t: Tables, c: Certificate, maxDepth: nat, xs: seq<Guarded>, i: nat, n: nat,
                                       token: nat)
    requires LacRun(t, c, maxDepth, xs) && i + n < |xs| && Kept(t, c, xs[i])
    requires xs[i].k.status.Running? && xs[i].established && xs[i].k.look == Tok(token)
    requires Promised(t, c, xs[i].k.ss, token, n)
    ensures ShiftedBy(t, xs, i, n, token)
    decreases n
  {
    hide Sound, Trips, Promised, ShiftsIt;
    if n > 0 {
      assert TripsTo(t, c, maxDepth, xs[i], xs[i + 1]);
      var status: nat, allocates: bool :| Trips(t, c, maxDepth, xs[i], status, allocates, xs[i + 1]);
      PromisedTrip(t, c, maxDepth, xs[i], status, allocates, xs[i + 1], n);
      assert Waits(xs, i, i, token);
      if !DoneAt(t, xs, i, token) {
        TripKeeps(t, c, maxDepth, xs[i], status, allocates, xs[i + 1]);
        PromiseKept(t, c, maxDepth, xs, i + 1, n - 1, token);
        ShiftedOn(t, xs, i, n, token);
      }
    } else {
      NothingPromised(t, c, xs[i].k.ss, token);
    }
  }

  lemma NothingPromised(t: Tables, c: Certificate, ss: seq<nat>, token: nat)
    ensures !Promised(t, c, ss, token, 0)
  {
  }

  lemma StartKept(t: Tables, c: Certificate, maxDepth: nat, initDepth: nat, text: seq<nat>, allocates: bool)
    requires Checked(t, c) && initDepth > 0 && forall x | x in text :: x < t.nTokens
    ensures Kept(t, c, Guarded(Initial(t, maxDepth, initDepth, text, allocates), false))
  {
    hide Checked;
    InitialSound(t, c, maxDepth, initDepth, text, allocates);
  }

  /** Over whole runs: such a reduction on a token in hand is followed by the shift of that token, in a number of steps
      that does not depend on the run, if memory suffices. */
  lemma ReductionPays(t: Tables, c: Certificate, maxDepth: nat, xs: seq<Guarded>, i: nat, status: nat, allocates: bool,
                      token: nat)
    returns (n: nat)
    requires LacRun(t, c, maxDepth, xs) && Kept(t, c, xs[0]) && i + 1 < |xs| && !Exempt(t, xs[i])
    requires Trips(t, c, maxDepth, xs[i], status, allocates, xs[i + 1]) && ReducesOn(t, c, xs[i], status, token)
    ensures Promised(t, c, xs[i].k.ss, token, n)
    ensures i + n < |xs| ==> ShiftedBy(t, xs, i, n, token)
  {
    hide Sound, Trips, Promised, ShiftsIt, ReducesOn;
    RunKeeps(t, c, maxDepth, xs, i);
    Steps(t, c, maxDepth, xs[i], status, allocates, xs[i + 1]);
    ReducesPromised(t, c, maxDepth, xs[i], status, allocates, xs[i + 1], token);
    n :| Promised(t, c, xs[i].k.ss, token, n);
    ReducedPromise(t, c, maxDepth, xs[i], status, allocates, xs[i + 1], token, n);
    assert Waits(xs, i, i, token);
    if i + n < |xs| && !DoneAt(t, xs, i, token) {
      TripKeeps(t, c, maxDepth, xs[i], status, allocates, xs[i + 1]);
      PromiseKept(t, c, maxDepth, xs, i + 1, n - 1, token);
      ShiftedOn(t, xs, i, n, token);
    }
  }

  /** What the reduction leaves of the promise. */
  lemma ReducedPromise(t: Tables, c: Certificate, maxDepth: nat, x: Guarded, status: nat, allocates: bool, x': Guarded,
                       token: nat, n: nat)
    requires Kept(t, c, x) && x.k.status.Running? && !Exempt(t, x)
    requires Trips(t, c, maxDepth, x, status, allocates, x') && ReducesOn(t, c, x, status, token)
    requires Promised(t, c, x.k.ss, token, n)
    ensures n > 0 && x'.k.nerrs == x.k.nerrs
    ensures x'.k.status.Exhausted? || (x'.k.status.Running? && x'.established && x'.k.look == Tok(token)
                                       && Promised(t, c, x'.k.ss, token, n - 1))
  {
    hide Checked, IsPath, Sound, Push, ActionSound, Live, Explore, t.Sized, Recover;
    Decided(t, c, x.k);
    SoundParts(t, c, x.k);
    CheckedMatches(t, c);
    var (k, a) := Decide(t, x.k);
    PromiseStep(t, c, k.ss, token, n);
    StepMatches(t, c, maxDepth, k, allocates);
    TripPlain(t, c, maxDepth, x, status, allocates);
    ReducesPromised(t, c, maxDepth, x, status, allocates, x', token);
  }

  lemma {:induction false} ExploreMore(t: Tables, c: Certificate, ss: seq<nat>, token: nat, n: nat, m: nat)
    requires Live(t, c, ss, token) && !Explore(t, c, ss, token, n).Pending? && n <= m
    ensures Explore(t, c, ss, token, m) == Explore(t, c, ss, token, n)
    decreases n
  {
    hide Live, Act;
    LiveReduce(t, c, ss, token);
    PendingLive(t, c, ss, token);
    var a := Act(t, c, ss, token);
    if n > 0 && a.Pending? { ExploreMore(t, c, a.ss, token, n - 1, m - 1); }
  }

  /** A token that is turned down would have been an error without the correction as well, in every parse with enough
      steps and memory. */
  lemma TurnedDownRightly(t: Tables, c: Certificate, maxDepth: nat, x: Guarded, allocates: bool, x': Guarded,
                          allocations: seq<bool>)
    returns (n: nat)
    requires CanStep(t, c, x.k) && Trips(t, c, maxDepth, x, 1, allocates, x')
    requires x.k.Top() < t.NStates() && t.Sized() && Asks(t, x)
    ensures var k := Decide(t, x.k).0;
      && CanStep(t, c, k) && k.look.Tok?
      && (k.look.token != t.undefTok && n <= |allocations| ==>
          var m := MainLoop(t, c, maxDepth, k, allocations); m.OutOfMemory? || m.o == Errs)
  {
    hide Sound, Explore, MainLoop, Live;
    SoundParts(t, c, x.k);
    Decided(t, c, x.k);
    var k := Decide(t, x.k).0;
    n := 0;
    if k.look.token != t.undefTok {
      n :| Rejected(t, c, k.ss, k.look.token, n);
      MainLoopMatches(t, c, maxDepth, k, allocations);
      if n <= |allocations| { ExploreMore(t, c, k.ss, k.look.token, n, |allocations|); }
    }
  }

  /** The result of `yy_lac` is right. */
  lemma ToldAnswers(t: Tables, c: Certificate, lim: Limits, k: Config, bound: nat, capacity: nat, capacity': nat,
                    status: nat)
    requires k.look.Tok? && Halts(t, c, k.ss, k.look.token, bound)
    requires Told(t, c, lim, k.ss, k.look.token, bound, capacity, capacity', status)
    ensures status <= 2 && Answers(t, c, k, status)
  {
    hide Live, Explore, Overflows, Fares;
    if status == 0 { assert Promised(t, c, k.ss, k.look.token, bound); }
    if status == 1 && k.look.token != t.undefTok { assert Rejected(t, c, k.ss, k.look.token, bound); }
  }

  /** `YY_LAC_ESTABLISH`. */
  method Ask(p: Yacc.Parser, lac: Scratch, lacAllocates: nat -> bool, ghost bound: nat) returns (status: nat)
    requires p.Shape() && p.look.Tok? && lac.t == p.t && lac.c == p.c && lac.es != p.ss && lac.es.Length > 0
    requires Halts(p.t, p.c, p.Abs().ss, p.look.token, bound)
    modifies lac, lac.es
    ensures p.Shape() && p.Abs() == old(p.Abs()) && status <= 2 && Answers(p.t, p.c, p.Abs(), status)
    ensures Told(p.t, p.c, Limits(lac.maxDepth, lacAllocates), p.Abs().ss, p.look.token, bound, old(lac.es.Length),
      lac.es.Length, status)
    ensures (lac.es == old(lac.es) || fresh(lac.es)) && lac.es.Length > 0 && lac.es != p.ss
  {
    hide Live, Explore, Fares, Overflows, Answers;
    ghost var capacity := lac.es.Length;
    status := lac.Check(p.ss, p.sp, p.look.token, lacAllocates, bound);
    ToldAnswers(p.t, p.c, Limits(lac.maxDepth, lacAllocates), p.Abs(), bound, capacity, lac.es.Length, status);
  }

  /** What follows it in the loop. */
  method Carry(p: Yacc.Parser, a: Action, established: bool, asks: bool, status: nat, allocates: bool)
    returns (established': bool)
    requires p.Shape() && p.status.Running? && p.t.Sized() && p.sp + 1 < p.ss.Length && (a.ShiftTo? ==> p.look.Tok?)
    requires forall i | 0 <= i <= p.sp :: p.ss[i] < p.t.NStates()
    requires a.ReduceBy? ==> p.t.IsRule(a.rule) && p.t.r2[a.rule] <= p.sp
    modifies p, p.ss, p.vs
    ensures p.Shape()
    ensures Guarded(p.Abs(), established') ==
      Carried(p.t, p.maxDepth, old(p.Abs()), a, established, asks, status, allocates)
    ensures (p.ss == old(p.ss) && p.vs == old(p.vs)) || (fresh(p.ss) && fresh(p.vs))
  {
    hide p.t.Sized, ParserMachine.Push, ParserMachine.Recover, ParserMachine.Shift, ParserMachine.Reduce;
    if asks && status == 2 {
      p.status := Exhausted;
      return true;
    }
    if asks && status == 1 {
      p.Recover(allocates);
      return false;
    }
    match a {
      case ShiftTo(s) =>
        p.Shift(s, allocates);
        return false;
      case ReduceBy(r) =>
        p.Reduce(r, allocates);
        return established || asks;
      case Fail =>
        p.Recover(allocates);
        return false;
    }
  }

  /** What the parser relies on between two trips. */
  lemma TripFacts(t: Tables, c: Certificate, k: Config)
    requires CanStep(t, c, k)
    ensures t.Sized() && |k.ss| == |k.vs| > 0 && k.Top() < t.NStates() && |k.ss| < k.capacity
    ensures forall i | 0 <= i < |k.ss| :: k.ss[i] < t.NStates()
    ensures var (k1, a) := Decide(t, k);
      && k1.ss == k.ss && k1.vs == k.vs && k1.capacity == k.capacity && k1.status == k.status
      && (a.ShiftTo? ==> k1.look.Tok?) && (!t.IsDefaulted(k.Top()) ==> k1.look.Tok?)
      && (a.ReduceBy? ==> t.IsRule(a.rule) && t.r2[a.rule] < |k.ss|)
  {
    hide Checked, IsPath, ActionSound;
    SoundParts(t, c, k);
    CheckedMatches(t, c);
    Decided(t, c, k);
    StatesInRange(t, c, k.ss);
  }

  /** A trip carried out as the tables and `yy_lac` say. */
  lemma TripDone(t: Tables, c: Certificate, maxDepth: nat, x: Guarded, status: nat, allocates: bool, k: Config,
                 a: Action, asks: bool)
    requires Kept(t, c, x) && x.k.status.Running? && t.Sized() && |x.k.ss| > 0 && x.k.Top() < t.NStates()
    requires (k, a) == Decide(t, x.k) && (asks <==> Asks(t, x))
    requires asks ==> k.look.Tok? && status <= 2 && Answers(t, c, k, status)
    requires |k.ss| == |k.vs| > 0 && (a.ShiftTo? ==> k.look.Tok?)
    requires a.ReduceBy? ==> t.IsRule(a.rule) && t.r2[a.rule] < |k.ss|
    ensures var x' := Carried(t, maxDepth, k, a, x.established, asks, status, allocates);
      Trips(t, c, maxDepth, x, status, allocates, x') && Kept(t, c, x')
  {
    hide Sound, Answers, Carried, Decide, Asks, t.Sized;
    var x' := Carried(t, maxDepth, k, a, x.established, asks, status, allocates);
    assert x' == Trip(t, c, maxDepth, x, status, allocates);
    TripKeeps(t, c, maxDepth, x, status, allocates, x');
  }

  lemma KeptSound(t: Tables, c: Certificate, x: Guarded)
    requires Kept(t, c, x)
    ensures Sound(t, c, x.k)
  {
  }

  /** The table lookup, and whether `yy_lac` is to be asked. */
  method Consult(p: Yacc.Parser, established: bool) returns (a: Action, asks: bool)
    requires p.Shape() && p.t.Sized() && p.ss[p.sp] < p.t.NStates()
    modifies p`look, p`pos
    ensures p.Shape() && (p.Abs(), a) == Decide(p.t, old(p.Abs()))
    ensures asks <==> Asks(p.t, old(Guarded(p.Abs(), established)))
    ensures asks ==> p.look.Tok?
  {
    hide p.t.Sized, p.t.Action, p.t.Default, Listed;
    ghost var k := p.Abs();
    var state := p.ss[p.sp];
    assert state == k.Top();
    a := p.Backup();
    asks :=
      !established && !p.t.IsDefaulted(state) && (a.ReduceBy? || (a.Fail? && !Listed(p.t, state, p.look.token)));
  }

  /** One trip on the arrays: the parser's, and the scratch array of `yy_lac`. `bound` is a number of actions within
      which the fate of the token is known. */
  method Step(p: Yacc.Parser, lac: Scratch, established: bool, allocates: bool,
              lacAllocates: nat -> bool, ghost bound: nat)
    returns (established': bool, ghost status: nat)
    requires p.Valid() && p.status.Running? && Kept(p.t, p.c, Guarded(p.Abs(), established))
    requires lac.t == p.t && lac.c == p.c && lac.es != p.ss && lac.es.Length > 0
    requires p.t.Sized() && p.Abs().Top() < p.t.NStates() && (Asks(p.t, Guarded(p.Abs(), established)) ==>
      Halts(p.t, p.c, p.Abs().ss, Decide(p.t, p.Abs()).0.look.token, bound))
    modifies p, p.ss, p.vs, lac, lac.es
    ensures p.Valid() && Kept(p.t, p.c, Guarded(p.Abs(), established'))
    ensures
      Trips(p.t, p.c, p.maxDepth, old(Guarded(p.Abs(), established)), status, allocates, Guarded(p.Abs(), established'))
    ensures Asks(p.t, old(Guarded(p.Abs(), established))) ==>
      Told(p.t, p.c, Limits(lac.maxDepth, lacAllocates), old(p.Abs()).ss, Decide(p.t, old(p.Abs())).0.look.token, bound,
        old(lac.es.Length), lac.es.Length, status)
    ensures (p.ss == old(p.ss) && p.vs == old(p.vs)) || (fresh(p.ss) && fresh(p.vs))
    ensures (lac.es == old(lac.es) || fresh(lac.es)) && lac.es.Length > 0 && lac.es != p.ss
  {
    hide Sound, Kept, Halts, Answers, Told, Carried, Decide, Asks, p.t.Sized;
    ghost var x := Guarded(p.Abs(), established);
    TripFacts(p.t, p.c, x.k);
    assert p.ss[p.sp] == x.k.Top();
    assert forall i | 0 <= i <= p.sp :: p.ss[i] == x.k.ss[i];
    var a, asks := Consult(p, established);
    assert p.Abs().ss == x.k.ss;
    var answer := 0;
    if asks {
      answer := Ask(p, lac, lacAllocates, bound);
    }
    status := answer;
    TripDone(p.t, p.c, p.maxDepth, x, status, allocates, p.Abs(), a, asks);
    KeptSound(p.t, p.c, Carried(p.t, p.maxDepth, p.Abs(), a, established, asks, status, allocates));
    established' := Carry(p, a, established, asks, answer, allocates);
  }
}
