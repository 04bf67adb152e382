/** Lookahead correction (`yy_lac`): an exploratory parse on a virtual stack, made of a prefix of
    the real state stack and a scratch array, predicts what the main loop does with a token. */
module Lac {
  import opened Grammar
  import opened LrTables
  import opened ParserMachine

  /** What happens to a token: it is shifted, it is an error, or `ss` is the stack so far. */
  datatype Outcome = Shifts | Errs | Pending(ss: seq<nat>)

  /** Stacks on which the machine can run. */
  ghost predicate Live(t: Tables, c: Certificate, ss: seq<nat>, token: nat) {
    Checked(t, c) && IsPath(t, c, ss) && t.final !in ss && token < t.nTokens
  }

  lemma LiveReduce(t: Tables, c: Certificate, ss: seq<nat>, token: nat)
    requires Live(t, c, ss, token)
    ensures t.Sized() && |ss| > 0 && ss[|ss| - 1] < t.NStates()
    ensures var a := t.Action(ss[|ss| - 1], token);
      a.ReduceBy? ==>
        && t.IsRule(a.rule) && t.r2[a.rule] < |ss|
        && ss[|ss| - 1 - t.r2[a.rule]] < t.NStates()
        && t.Goto(ss[|ss| - 1 - t.r2[a.rule]], t.r1[a.rule]) >= 0
        && Live(t, c, ss[..|ss| - t.r2[a.rule]] + [t.Goto(ss[|ss| - 1 - t.r2[a.rule]], t.r1[a.rule])], token)
  {
    hide Checked, IsPath;
    CheckedMatches(t, c);
    PathBottom(t, c, ss);
    PathInRange(t, c, ss, |ss| - 1);
    assert ss[|ss| - 1] in ss;
    CheckedAction(t, c, ss[|ss| - 1], token);
    var a := t.Action(ss[|ss| - 1], token);
    if a.ReduceBy? {
      var r := a.rule;
      ReduceOnPath(t, c, ss, r);
      var below := ss[..|ss| - t.r2[r]];
      var p := below[|below| - 1];
      PathExtend(t, c, below, t.r1[r], t.Goto(p, t.r1[r]));
      GotoNotFinal(t, c, p, r);
    }
  }

  /** One action of the plain parser on a state stack and a token. */
  ghost function Act(t: Tables, c: Certificate, ss: seq<nat>, token: nat): Outcome
    requires Live(t, c, ss, token)
  {
    LiveReduce(t, c, ss, token);
    match t.Action(ss[|ss| - 1], token)
    case ShiftTo(_) => Shifts
    case Fail => Errs
    case ReduceBy(r) =>
      Pending(ss[..|ss| - t.r2[r]] + [t.Goto(ss[|ss| - 1 - t.r2[r]], t.r1[r])])
  }

  /** What becomes of the token within `n` actions. */
  ghost function Explore(t: Tables, c: Certificate, ss: seq<nat>, token: nat, n: nat): Outcome
    requires Live(t, c, ss, token)
    decreases n
  {
    if n == 0 then Pending(ss)
    else
      LiveReduce(t, c, ss, token);
      match Act(t, c, ss, token)
      case Pending(ss') => Explore(t, c, ss', token, n - 1)
      case decided => decided
  }

  /** What the transitions of the parser do with its lookahead; `None` if a stack cannot grow. */
  datatype MainOutcome = OutOfMemory | Result(o: Outcome)

  ghost function MainLoop(t: Tables, c: Certificate, maxDepth: nat, k: Config, allocations: seq<bool>): MainOutcome
    requires CanStep(t, c, k) && k.look.Tok?
    decreases |allocations|
  {
    if allocations == [] then Result(Pending(k.ss))
    else
      Decided(t, c, k);
      match Decide(t, k).1
      case ShiftTo(_) => Result(Shifts)
      case Fail => Result(Errs)
      case ReduceBy(_) =>
        AdvanceSound(t, c, maxDepth, k, allocations[0]);
        var k' := Advance(t, c, maxDepth, k, allocations[0]);
        if k'.status.Running? && k'.look == k.look then MainLoop(t, c, maxDepth, k', allocations[1..])
        else OutOfMemory
  }

  lemma CanStepLive(t: Tables, c: Certificate, k: Config)
    requires CanStep(t, c, k) && k.look.Tok?
    ensures Live(t, c, k.ss, k.look.token)
  {
    hide Checked, IsPath;
  }

  /** One transition of the parser is one action of the exploration. */
  lemma StepMatches(t: Tables, c: Certificate, maxDepth: nat, k: Config, allocates: bool)
    requires CanStep(t, c, k) && k.look.Tok?
    ensures Live(t, c, k.ss, k.look.token)
    ensures k.Top() < t.NStates()
    ensures match Decide(t, k).1
      case ShiftTo(_) => Act(t, c, k.ss, k.look.token) == Shifts
      case Fail => Act(t, c, k.ss, k.look.token) == Errs
      case ReduceBy(_) =>
        var k' := Advance(t, c, maxDepth, k, allocates);
        Act(t, c, k.ss, k.look.token) == Pending(k'.ss) && k'.look == k.look
        && (!k'.status.Running? ==> k'.status.Exhausted?)
  {
    CanStepLive(t, c, k);
    Decided(t, c, k);
    LiveReduce(t, c, k.ss, k.look.token);
    RoomToPush(t, c, k);
    AdvanceSound(t, c, maxDepth, k, allocates);
    hide Checked, IsPath, Sound, ActionSound, Settle, Push, Recover, t.Sized;
  }

  /** The exploration predicts the main loop, whatever the allocator does, until a stack of the
      main loop cannot grow. */
  lemma {:induction false} MainLoopMatches(t: Tables, c: Certificate, maxDepth: nat, k: Config, allocations: seq<bool>)
    requires CanStep(t, c, k) && k.look.Tok?
    ensures Live(t, c, k.ss, k.look.token)
    ensures var m := MainLoop(t, c, maxDepth, k, allocations);
      m.OutOfMemory? || m.o == Explore(t, c, k.ss, k.look.token, |allocations|)
    decreases |allocations|
  {
    hide Sound, Advance, Act;
    CanStepLive(t, c, k);
    if allocations != [] {
      StepMatches(t, c, maxDepth, k, allocations[0]);
      LiveReduce(t, c, k.ss, k.look.token);
      if Decide(t, k).1.ReduceBy? {
        AdvanceSound(t, c, maxDepth, k, allocations[0]);
        var k' := Advance(t, c, maxDepth, k, allocations[0]);
        if k'.status.Running? {
          MainLoopMatches(t, c, maxDepth, k', allocations[1..]);
        }
      }
    }
  }

  /** Within `n` actions the token's fate is known.  Tables with an endless chain of reductions on
      some token, on which `yy_lac` and the parser both hang, do not satisfy this. */
  ghost predicate Halts(t: Tables, c: Certificate, ss: seq<nat>, token: nat, n: nat) {
    Live(t, c, ss, token) && !Explore(t, c, ss, token, n).Pending?
  }

  /** A stack reached on the way to the decision is deeper than `limit`. */
  ghost predicate Overflows(t: Tables, c: Certificate, ss: seq<nat>, token: nat, n: nat, limit: nat)
    requires Live(t, c, ss, token)
    decreases n
  {
    && n > 0
    && Act(t, c, ss, token).Pending?
    && (LiveReduce(t, c, ss, token);
        var ss' := Act(t, c, ss, token).ss;
        |ss'| > limit + 1 || Overflows(t, c, ss', token, n - 1, limit))
  }

  /** What an exploration has for its scratch array: a depth limit and an allocator. */
  datatype Limits = Limits(maxDepth: nat, allocates: nat -> bool)

  /** The capacity of the scratch array, or why it cannot hold one more element. */
  datatype Room = Enough(capacity: nat) | TooDeep | Refused(size: nat)

  /** Growing by one above `m` elements.  The first element is stored without asking. */
  function Grow(lim: Limits, m: nat, capacity: nat): Room {
    var size := if lim.maxDepth < 2 * (m + 1) then lim.maxDepth else 2 * (m + 1);
    if m == 0 || m < capacity then Enough(capacity)
    else if lim.maxDepth < m + 1 then TooDeep
    else if lim.allocates(size) then Enough(size) else Refused(size)
  }

  /** The array grows, where it does, to more than twice its size or to the limit, so that the requests of an
      exploration are few. */
  lemma GrowsFast(lim: Limits, m: nat, capacity: nat)
    requires Grow(lim, m, capacity).Enough?
    ensures var size := Grow(lim, m, capacity).capacity;
      m < capacity || m == 0 ==> size == capacity
    ensures var size := Grow(lim, m, capacity).capacity;
      size != capacity ==> m < size && (size == lim.maxDepth || size > 2 * capacity)
  {
  }

  /** How the scratch array fares during the exploration of `ss`, the top `m` elements of which are on it: each
      reduction pops it before the real stack, and the first store that fails ends the exploration. */
  ghost function Fares(t: Tables, c: Certificate, lim: Limits, ss: seq<nat>, m: nat, capacity: nat, token: nat, n: nat)
    : Room
    requires Live(t, c, ss, token)
    decreases n
  {
    if n == 0 || !Act(t, c, ss, token).Pending? then Enough(capacity)
    else
      LiveReduce(t, c, ss, token);
      var rest := Rest(m, t.r2[t.Action(ss[|ss| - 1], token).rule]);
      match Grow(lim, rest, capacity)
      case Enough(more) => Fares(t, c, lim, Act(t, c, ss, token).ss, rest + 1, more, token, n - 1)
      case failed => failed
  }

  /** What stays on the scratch array when `length` elements are popped. */
  function Rest(m: nat, length: nat): nat {
    if length < m then m - length else 0
  }

  /** One reduction of the exploration, as far as memory is concerned. */
  lemma FaresStep(t: Tables, c: Certificate, lim: Limits, ss: seq<nat>, m: nat, capacity: nat, token: nat, n: nat)
    requires Live(t, c, ss, token) && n > 0 && Act(t, c, ss, token).Pending?
    ensures |ss| > 0 && ss[|ss| - 1] < t.NStates() && t.Sized() && t.Action(ss[|ss| - 1], token).ReduceBy?
    ensures var r := t.Action(ss[|ss| - 1], token).rule; var ss' := Act(t, c, ss, token).ss;
      && r < |t.r2| && t.r2[r] < |ss| && |ss'| == |ss| - t.r2[r] + 1 && Live(t, c, ss', token)
      && (|ss'| > lim.maxDepth + 1 || Overflows(t, c, ss', token, n - 1, lim.maxDepth) ==>
          Overflows(t, c, ss, token, n, lim.maxDepth))
      && var room := Grow(lim, Rest(m, t.r2[r]), capacity);
        Fares(t, c, lim, ss, m, capacity, token, n) ==
          if room.Enough? then Fares(t, c, lim, ss', Rest(m, t.r2[r]) + 1, room.capacity, token, n - 1) else room
  {
    hide Live, Grow;
    LiveReduce(t, c, ss, token);
  }

  /** A store fails only when the virtual stack is too deep, or a request made on the way, for more than the
      array holds and no more than the limit, is refused. */
  lemma {:induction false} FailureHasCause(t: Tables, c: Certificate, lim: Limits, ss: seq<nat>, m: nat, capacity: nat,
                                           token: nat, n: nat)
    requires Live(t, c, ss, token) && m < |ss|
    ensures match Fares(t, c, lim, ss, m, capacity, token, n)
      case Enough(more) => capacity <= more
      case TooDeep => Overflows(t, c, ss, token, n, lim.maxDepth)
      case Refused(size) => !lim.allocates(size) && capacity < size <= lim.maxDepth
    decreases n
  {
    hide Live, Act, Overflows;
    if n > 0 && Act(t, c, ss, token).Pending? {
      hide Fares;
      FaresStep(t, c, lim, ss, m, capacity, token, n);
      var rest := Rest(m, t.r2[t.Action(ss[|ss| - 1], token).rule]);
      match Grow(lim, rest, capacity)
      case Enough(more) => FailureHasCause(t, c, lim, Act(t, c, ss, token).ss, rest + 1, more, token, n - 1);
      case _ =>
    }
  }

  /** How one action advances an exploration that halts. */
  lemma ExploreStep(t: Tables, c: Certificate, lim: Limits, ss: seq<nat>, m: nat, capacity: nat, token: nat, n: nat)
    requires Halts(t, c, ss, token, n)
    ensures |ss| > 0 && ss[|ss| - 1] < t.NStates() && t.Sized()
    ensures var a := t.Action(ss[|ss| - 1], token); match a
      case ShiftTo(_) =>
        Explore(t, c, ss, token, n) == Shifts && Fares(t, c, lim, ss, m, capacity, token, n) == Enough(capacity)
      case Fail =>
        Explore(t, c, ss, token, n) == Errs && Fares(t, c, lim, ss, m, capacity, token, n) == Enough(capacity)
      case ReduceBy(r) =>
        && |t.r1| == |t.r2| && t.IsRule(r) && t.r2[r] < |ss| && t.nTokens <= t.r1[r] < t.nTokens + |t.pgoto|
        && var below := ss[..|ss| - t.r2[r]];
        && below[|below| - 1] < t.NStates()
        && var target := t.Goto(below[|below| - 1], t.r1[r]);
        && n > 0 && target >= 0
        && var ss' := below + [target];
        && Halts(t, c, ss', token, n - 1)
        && Explore(t, c, ss, token, n) == Explore(t, c, ss', token, n - 1)
        && var rest := Rest(m, t.r2[r]);
        && Fares(t, c, lim, ss, m, capacity, token, n) ==
             (var room := Grow(lim, rest, capacity);
              if room.Enough? then Fares(t, c, lim, ss', rest + 1, room.capacity, token, n - 1) else room)
  {
    hide Live;
    LiveReduce(t, c, ss, token);
  }

  /** The stack after a reduction by rule `r`. */
  function Landed(t: Tables, stack: seq<nat>, r: nat): seq<nat> {
    if t.Sized() && r < |t.r1| && r < |t.r2| && t.r2[r] < |stack| && t.nTokens <= t.r1[r] < t.nTokens + |t.pgoto|
       && t.Goto(stack[|stack| - 1 - t.r2[r]], t.r1[r]) >= 0
    then stack[..|stack| - t.r2[r]] + [t.Goto(stack[|stack| - 1 - t.r2[r]], t.r1[r])]
    else stack
  }

  /** The exploration of `start` has come to `stack`, with `n` actions left. */
  ghost predicate Exploring(t: Tables, c: Certificate, lim: Limits, start: seq<nat>, size: nat, token: nat, bound: nat,
                            stack: seq<nat>, m: nat, capacity: nat, n: nat) {
    && Live(t, c, start, token) && Halts(t, c, stack, token, n)
    && Explore(t, c, start, token, bound) == Explore(t, c, stack, token, n)
    && Fares(t, c, lim, start, 0, size, token, bound) == Fares(t, c, lim, stack, m, capacity, token, n)
  }

  /** How the exploration goes on. */
  lemma ExploringStep(t: Tables, c: Certificate, lim: Limits, start: seq<nat>, size: nat, token: nat, bound: nat,
                      stack: seq<nat>, m: nat, capacity: nat, n: nat)
    requires Exploring(t, c, lim, start, size, token, bound, stack, m, capacity, n)
    ensures Live(t, c, start, token) && |stack| > 0 && stack[|stack| - 1] < t.NStates() && t.Sized()
    ensures match t.Action(stack[|stack| - 1], token)
      case ShiftTo(_) =>
        && Explore(t, c, start, token, bound) == Shifts
        && Fares(t, c, lim, start, 0, size, token, bound) == Enough(capacity)
      case Fail =>
        && Explore(t, c, start, token, bound) == Errs
        && Fares(t, c, lim, start, 0, size, token, bound) == Enough(capacity)
      case ReduceBy(r) =>
        && t.IsRule(r) && r < |t.r2| && r < |t.r1| && t.r2[r] < |stack| && t.nTokens <= t.r1[r] < t.nTokens + |t.pgoto|
        && n > 0
        && t.Goto(stack[|stack| - 1 - t.r2[r]], t.r1[r]) >= 0
        && match Grow(lim, Rest(m, t.r2[r]), capacity)
           case Enough(more) =>
             Exploring(t, c, lim, start, size, token, bound, Landed(t, stack, r), Rest(m, t.r2[r]) + 1, more, n - 1)
           case failed => Fares(t, c, lim, start, 0, size, token, bound) == failed
  {
    hide Live, t.Action, t.Goto, Explore, t.Sized, Fares, Grow;
    ExploreStep(t, c, lim, stack, m, capacity, token, n);
  }

  /** Where no state shifts the undefined token, parsing on with it ends in an error. */
  lemma {:induction false} UndefinedTokenErrs(t: Tables, c: Certificate, ss: seq<nat>, n: nat)
    requires Halts(t, c, ss, t.undefTok, n)
    requires t.Sized() && forall s | 0 <= s < t.NStates() :: !t.Action(s, t.undefTok).ShiftTo?
    ensures Explore(t, c, ss, t.undefTok, n) == Errs
    decreases n
  {
    hide Live;
    if n > 0 {
      LiveReduce(t, c, ss, t.undefTok);
      match Act(t, c, ss, t.undefTok)
      case Pending(ss') => UndefinedTokenErrs(t, c, ss', n - 1);
      case _ =>
    }
  }

  /** The scratch array `yyes` with its capacity. */
  class Scratch {
    const t: Tables
    ghost const c: Certificate
    const maxDepth: nat
    var es: array<nat>           // yyes; its length is yyes_capacity

    constructor (t: Tables, ghost c: Certificate, maxDepth: nat, size: nat)
      requires size > 0
      ensures this.t == t && this.c == c && this.maxDepth == maxDepth && fresh(es) && es.Length == size
    {
      this.t, this.c, this.maxDepth := t, c, maxDepth;
      es := new nat[size];
    }

    /** `yy_lac_stack_realloc` for a stack of `m` elements that is to grow by one; the result is
        false if memory is exhausted. */
    method Reserve(m: nat, allocates: nat -> bool) returns (ok: bool)
      requires 0 < m <= es.Length
      modifies this
      ensures match Grow(Limits(maxDepth, allocates), m, old(es.Length))
        case Enough(capacity) => ok && es.Length == capacity && m < capacity && es[..m] == old(es[..m])
        case _ => !ok && es == old(es)
      ensures (es == old(es) || fresh(es)) && es.Length >= old(es.Length)
    {
      if es.Length < m + 1 {
        var size := 2 * (m + 1);
        if maxDepth < m + 1 {
          return false;
        }
        if maxDepth < size {
          size := maxDepth;
        }
        if !allocates(size) {
          return false;
        }
        var es1 := new nat[size];
        for i := 0 to m
          modifies es1
          invariant es1[..i] == es[..i]
        {
          es1[i] := es[i];
        }
        es := es1;
      }
      return true;
    }

    /** The table lookup at the head of the loop of `yy_lac`. */
    method Consult(state: nat, token: nat) returns (a: Action)
      requires t.Sized() && state < t.NStates()
      ensures a == t.Action(state, token)
    {
      var rule := t.pact[state];
      if rule == t.pactNinf || rule + token < 0 || t.last < rule + token || t.check[rule + token] != token {
        rule := t.defact[state];
        if rule == 0 {
          return Fail;
        }
      } else {
        rule := t.table[rule + token];
        if rule == t.tableNinf {
          return Fail;
        }
        if 0 < rule {
          return ShiftTo(rule);
        }
        rule := -rule;
      }
      return ReduceBy(rule);
    }

    /** The goto at the foot of the loop. */
    method Target(state: nat, lhs: nat) returns (target: int)
      requires t.Sized() && t.nTokens <= lhs < t.nTokens + |t.pgoto|
      ensures target == t.Goto(state, lhs)
    {
      target := t.pgoto[lhs - t.nTokens] + state;
      if target < 0 || t.last < target || t.check[target] != state {
        target := t.defgoto[lhs - t.nTokens];
      } else {
        target := t.table[target];
      }
    }

    /** `*yyesp`: yyes_prev is yyss + prev; yyesp is yyes_prev when m == 0, else yyes + m - 1. */
    function Top(ss: array<nat>, prev: nat, m: nat): nat
      requires prev < ss.Length && m <= es.Length
      reads this, ss, es
    {
      if m == 0 then ss[prev] else es[m - 1]
    }

    ghost function Virtual(ss: array<nat>, prev: nat, m: nat): (stack: seq<nat>)
      requires prev < ss.Length && m <= es.Length
      reads this, ss, es
      ensures |stack| == prev + 1 + m && stack[|stack| - 1] == Top(ss, prev, m)
    {
      ss[..prev + 1] + es[..m]
    }

    lemma VirtualStart(ss: array<nat>, top: nat)
      requires top < ss.Length
      ensures Virtual(ss, top, 0) == ss[..top + 1]
    {
    }

    /** Move the two pointers down by `length` elements, the scratch array first. */
    method PopVirtual(ss: array<nat>, prev: nat, m: nat, length: nat) returns (prev': nat, m': nat)
      requires prev < ss.Length && m <= es.Length && length <= prev + m
      ensures prev' <= prev && m' == Rest(m, length)
      ensures Virtual(ss, prev', m') == Virtual(ss, prev, m)[..prev + 1 + m - length]
    {
      prev', m' := prev, m;
      var rest := length;
      if m' != 0 {
        if rest < m' {
          m', rest := m' - rest, 0;
        } else {
          m', rest := 0, rest - m';
        }
      }
      prev' := prev' - rest;
    }

    /** Store a state above the virtual stack, in the scratch array. */
    method PushVirtual(ss: array<nat>, prev: nat, m: nat, state: int, allocates: nat -> bool) returns (ok: bool)
      requires ss != es && es.Length > 0 && prev < ss.Length && m <= es.Length && state >= 0
      modifies this, es
      ensures (es == old(es) || fresh(es)) && es.Length >= old(es.Length)
      ensures match Grow(Limits(maxDepth, allocates), m, old(es.Length))
        case Enough(capacity) =>
          ok && m < es.Length == capacity && Virtual(ss, prev, m + 1) == old(Virtual(ss, prev, m)) + [state]
        case _ => !ok && es == old(es) && es[..] == old(es[..])
    {
      if m != 0 {
        var fits := Reserve(m, allocates);
        if !fits {
          return false;
        }
      }
      es[m] := state;
      return true;
    }

    /** The body of the loop for a reduction. */
    method ReduceVirtual(ss: array<nat>, prev: nat, m: nat, rule: nat, allocates: nat -> bool)
      returns (ok: bool, prev': nat, m': nat)
      requires ss != es && es.Length > 0 && prev < ss.Length && m <= es.Length
      requires t.Sized() && t.IsRule(rule) && t.r2[rule] <= prev + m
      requires t.Goto(Virtual(ss, prev, m)[prev + m - t.r2[rule]], t.r1[rule]) >= 0
      modifies this, es
      ensures (es == old(es) || fresh(es)) && es.Length > 0 && prev' <= prev && m' <= es.Length
      ensures var rest := Rest(m, t.r2[rule]);
        match Grow(Limits(maxDepth, allocates), rest, old(es.Length))
        case Enough(capacity) =>
          && ok && es.Length == capacity && m' == rest + 1
          && Virtual(ss, prev', m') == Landed(t, old(Virtual(ss, prev, m)), rule)
        case _ => !ok
    {
      hide t.Goto, Grow;
      prev', m' := PopVirtual(ss, prev, m, t.r2[rule]);
      var target := Target(Top(ss, prev', m'), t.r1[rule]);
      ok := PushVirtual(ss, prev', m', target, allocates);
      if ok {
        m' := m' + 1;
      }
    }

    /** `yy_lac`.  `ss[..top + 1]` is the real stack; 0 means that the token can be shifted, 1
        that it is an error, 2 that memory is exhausted. */
    method Check(ss: array<nat>, top: nat, token: nat, allocates: nat -> bool, ghost bound: nat) returns (status: nat)
      requires ss != es && es.Length > 0 && top < ss.Length
      requires Halts(t, c, ss[..top + 1], token, bound)
      modifies this, es
      ensures (es == old(es) || fresh(es)) && es.Length > 0
      ensures token == t.undefTok ==> status == 1
      ensures token != t.undefTok ==>
        match Fares(t, c, Limits(maxDepth, allocates), old(ss[..top + 1]), 0, old(es.Length), token, bound)
        case Enough(capacity) =>
          && es.Length == capacity
          && status == (if Explore(t, c, old(ss[..top + 1]), token, bound) == Shifts then 0 else 1)
        case TooDeep => status == 2 && Overflows(t, c, old(ss[..top + 1]), token, bound, maxDepth)
        case Refused(size) => status == 2 && !allocates(size) && old(es.Length) < size <= maxDepth
    {
      hide Live, t.Action, t.Goto, Explore, Overflows, t.Sized, Fares, Grow, Exploring, Halts, Landed, Virtual;
      if token == t.undefTok {
        return 1;
      }
      ghost var lim := Limits(maxDepth, allocates);
      ghost var start: seq<nat> := ss[..top + 1];
      ghost var size := es.Length;
      HaltsLive(t, c, start, token, bound);
      FailureHasCause(t, c, lim, start, 0, size, token, bound);
      ExploringStart(t, c, lim, start, size, token, bound);
      var prev: nat, m: nat := top, 0;
      ghost var fuel := bound;
      ghost var stack := start;
      VirtualStart(ss, top);
      while true
        invariant prev <= top && m <= es.Length && es.Length > 0
        invariant ss != es && (es == old(es) || fresh(es))
        invariant stack == Virtual(ss, prev, m)
        invariant Exploring(t, c, lim, start, size, token, bound, stack, m, es.Length, fuel)
        decreases fuel
      {
        ExploringStep(t, c, lim, start, size, token, bound, stack, m, es.Length, fuel);
        var a := Consult(Top(ss, prev, m), token);
        match a
        case ShiftTo(_) => return 0;
        case Fail => return 1;
        case ReduceBy(rule) =>
          var ok;
          ok, prev, m := ReduceVirtual(ss, prev, m, rule, allocates);
          if !ok {
            return 2;
          }
          stack, fuel := Landed(t, stack, rule), fuel - 1;
      }
    }
  }

  lemma HaltsLive(t: Tables, c: Certificate, ss: seq<nat>, token: nat, n: nat)
    requires Halts(t, c, ss, token, n)
    ensures Live(t, c, ss, token)
  {
  }

  lemma ExploringStart(t: Tables, c: Certificate, lim: Limits, start: seq<nat>, size: nat, token: nat, bound: nat)
    requires Halts(t, c, start, token, bound)
    ensures Exploring(t, c, lim, start, size, token, bound, start, 0, size, bound)
  {
    hide Explore, Fares, Live;
    HaltsLive(t, c, start, token, bound);
  }
}
