/** `yyparse` of the yacc.c skeleton: two growing arrays, a stack index and the lookahead,
    updated in place, one call of `Step` a trip from `yybackup` to the next `yybackup`. */
module Yacc {
  import opened Grammar
  import opened LrTables
  import opened ParserMachine

  class Parser {
    const t: Tables
    ghost const c: Certificate
    const maxDepth: nat          // YYMAXDEPTH
    const text: seq<nat>
    var ss: array<nat>           // yyss
    var vs: array<Tree>          // yyvs
    var sp: nat                  // yyssp - yyss, and yyvsp - yyvs
    var pos: nat
    var look: Look
    var errStatus: nat
    var nerrs: nat
    var status: Status

    ghost predicate Shape()
      reads this
    {
      ss.Length == vs.Length && sp < ss.Length
    }

    ghost function Abs(): Config
      requires Shape()
      reads this, ss, vs
    {
      Config(ss[..sp + 1], vs[..sp + 1], ss.Length, text, pos, look, errStatus, nerrs, status)
    }

    ghost predicate Valid()
      reads this, ss, vs
    {
      Shape() && Sound(t, c, Abs())
    }

    constructor (t: Tables, ghost c: Certificate, maxDepth: nat, initDepth: nat, text: seq<nat>, allocates: bool)
      requires Checked(t, c) && initDepth > 0 && forall x | x in text :: x < t.nTokens
      ensures Valid() && Abs() == Initial(t, maxDepth, initDepth, text, allocates)
      ensures this.t == t && this.c == c && this.maxDepth == maxDepth
      ensures fresh(ss) && fresh(vs)
    {
      this.t, this.c, this.maxDepth, this.text := t, c, maxDepth, text;
      ss, vs := new nat[initDepth], new Tree[initDepth](_ => Leaf(EOF));
      sp, pos, look, errStatus, nerrs, status := 0, 0, NoLook, 0, 0, Running;
      new;
      ss[0] := 0;
      assert ss[..1] == [0] && vs[..1] == [Leaf(EOF)];
      Settle(allocates);
      InitialSound(t, c, maxDepth, initDepth, text, allocates);
    }

    /** `YYSTACK_RELOCATE`: move both stacks to arrays of `n` elements. */
    method Relocate(n: nat)
      requires Shape() && sp < n
      modifies this`ss, this`vs
      ensures Shape() && Abs() == old(Abs()).(capacity := n)
      ensures fresh(ss) && fresh(vs)
    {
      var ss1 := new nat[n];
      var vs1 := new Tree[n](_ => Leaf(EOF));
      for i := 0 to sp + 1
        modifies ss1, vs1
        invariant ss1[..i] == ss[..i] && vs1[..i] == vs[..i]
      {
        ss1[i], vs1[i] := ss[i], vs[i];
      }
      ss, vs := ss1, vs1;
    }

    /** Label `yysetstate`, after the store. */
    method Settle(allocates: bool)
      requires Shape()
      modifies this
      ensures Shape() && Abs() == ParserMachine.Settle(t, maxDepth, old(Abs()), allocates)
      ensures (ss == old(ss) && vs == old(vs)) || (fresh(ss) && fresh(vs))
    {
      if ss.Length - 1 <= sp {
        if maxDepth <= ss.Length {
          status := Exhausted;
          return;
        }
        var doubled := ss.Length * 2;
        if maxDepth < doubled {
          doubled := maxDepth;
        }
        if !allocates {
          status := Exhausted;
          return;
        }
        Relocate(doubled);
        assert sp < ss.Length - 1;   // so the YYABORT that follows the relocation is dead
      }
      assert ss[sp] == Abs().Top();
      if ss[sp] == t.final {
        status := Accepted;
      }
    }

    /** Label `yynewstate`, with the value pushed just before it. */
    method Push(s: nat, v: Tree, allocates: bool)
      requires Shape() && sp + 1 < ss.Length
      modifies this, ss, vs
      ensures Shape() && Abs() == ParserMachine.Push(t, maxDepth, old(Abs()), s, v, allocates)
      ensures (ss == old(ss) && vs == old(vs)) || (fresh(ss) && fresh(vs))
    {
      sp := sp + 1;
      vs[sp] := v;
      ss[sp] := s;
      ghost var k := old(Abs()).(ss := old(Abs()).ss + [s], vs := old(Abs()).vs + [v]);
      assert Abs().ss == k.ss && Abs().vs == k.vs;
      Settle(allocates);
    }

    /** Labels `yybackup` and `yydefault`: read a lookahead if the state needs one and consult
        the tables. */
    method Backup() returns (a: Action)
      requires Shape() && t.Sized() && ss[sp] < t.NStates()
      modifies this`look, this`pos
      ensures Shape() && (Abs(), a) == Decide(t, old(Abs()))
    {
      ghost var k := Abs();
      var state := ss[sp];
      assert state == k.Top();
      var n := t.pact[state];
      if n != t.pactNinf {
        if look.NoLook? {
          look, pos := Tok(TokenAt(text, pos)), pos + 1;
        }
        assert Abs() == ReadAhead(k);
        n := n + look.token;
        if 0 <= n <= t.last && t.check[n] == look.token {
          n := t.table[n];
          if n <= 0 {
            if n == t.tableNinf {
              return Fail;
            }
            return ReduceBy(-n);
          }
          return ShiftTo(n);
        }
      }
      n := t.defact[state];
      if n == 0 {
        return Fail;
      }
      return ReduceBy(n);
    }

    /** One trip around the loop of `yyparse`. */
    method Step(allocates: bool)
      requires Valid() && status.Running?
      modifies this, ss, vs
      ensures Valid()
      ensures Abs() == Advance(t, c, maxDepth, old(Abs()), allocates)
      ensures (ss == old(ss) && vs == old(vs)) || (fresh(ss) && fresh(vs))
    {
      ghost var k := Abs();
      Decided(t, c, k);
      AdvanceSound(t, c, maxDepth, k, allocates);
      StatesInRange(t, c, k.ss);
      RoomToPush(t, c, k);
      hide Checked, IsPath, Sound, ActionSound, ParserMachine.Push;
      assert ss[sp] == k.Top();
      assert forall i | 0 <= i <= sp :: ss[i] == k.ss[i];
      var a := Backup();
      match a
      case ShiftTo(s) => Shift(s, allocates);
      case ReduceBy(r) => Reduce(r, allocates);
      case Fail => Recover(allocates);
    }

    /** Shift the lookahead token. */
    method Shift(s: nat, allocates: bool)
      requires Shape() && look.Tok? && sp + 1 < ss.Length
      modifies this, ss, vs
      ensures Shape() && Abs() == ParserMachine.Shift(t, maxDepth, old(Abs()), s, allocates)
      ensures (ss == old(ss) && vs == old(vs)) || (fresh(ss) && fresh(vs))
    {
      if errStatus > 0 {
        errStatus := errStatus - 1;
      }
      var value := Leaf(look.token);
      look := NoLook;
      Push(s, value, allocates);
    }

    /** Label `yyreduce`; the semantic action is the free one. */
    method Reduce(r: nat, allocates: bool)
      requires Shape() && t.Sized() && t.IsRule(r) && t.r2[r] <= sp && sp + 1 < ss.Length
      modifies this, ss, vs
      ensures Shape() && Abs() == ParserMachine.Reduce(t, maxDepth, old(Abs()), r, allocates)
      ensures (ss == old(ss) && vs == old(vs)) || (fresh(ss) && fresh(vs))
    {
      hide ParserMachine.Push, t.Sized, t.Goto;
      ghost var k := Abs();
      RuleInRange(t, r);
      var length := t.r2[r];
      var value := Node(r, vs[sp + 1 - length..sp + 1]);
      assert value.kids == k.vs[|k.vs| - length..];
      sp := sp - length;
      assert Abs() == Pop(k, length);
      assert ss[sp] == Abs().Top();
      var target := Target(ss[sp], t.r1[r]);
      Push(if target < 0 then 0 else target, value, allocates);
    }

    /** The goto. */
    method Target(state: nat, lhs: nat) returns (target: int)
      requires t.Sized() && t.nTokens <= lhs < t.nTokens + |t.pgoto|
      ensures target == t.Goto(state, lhs)
    {
      target := t.pgoto[lhs - t.nTokens] + state;
      if 0 <= target && target <= t.last && t.check[target] == state {
        target := t.table[target];
      } else {
        target := t.defgoto[lhs - t.nTokens];
      }
    }

    /** Label `yyerrlab`. */
    method Recover(allocates: bool)
      requires Shape() && t.Sized() && sp + 1 < ss.Length && status.Running?
      requires forall i | 0 <= i <= sp :: ss[i] < t.NStates()
      modifies this, ss, vs
      ensures Shape() && Abs() == ParserMachine.Recover(t, maxDepth, old(Abs()), allocates)
      ensures (ss == old(ss) && vs == old(vs)) || (fresh(ss) && fresh(vs))
    {
      hide ParserMachine.RecoverShift, t.Sized;
      if errStatus == 0 {
        nerrs := nerrs + 1;
      }
      if errStatus == 3 {
        if look == Tok(EOF) {
          status := Aborted;
          return;
        }
        look := NoLook;
      }
      RecoverShift(allocates);
    }

    /** Label `yyerrlab1`. */
    method RecoverShift(allocates: bool)
      requires Shape() && t.Sized() && sp + 1 < ss.Length && status.Running?
      requires forall i | 0 <= i <= sp :: ss[i] < t.NStates()
      modifies this, ss, vs
      ensures Shape() && Abs() == ParserMachine.RecoverShift(t, maxDepth, old(Abs()), allocates)
      ensures (ss == old(ss) && vs == old(vs)) || (fresh(ss) && fresh(vs))
    {
      hide ParserMachine.Push, ParserMachine.RecoverShift, ShiftsError, ErrorHeight, t.Sized, t.Action;
      ghost var k := Abs();
      ghost var h := ErrorHeight(t, k.ss, |k.ss|);
      RecoverShiftAt(t, maxDepth, k, allocates);
      errStatus := 3;
      ghost var k3 := Abs();
      assert k3 == k.(errStatus := 3);
      var n := PopToError();
      assert h > 0 ==> Abs() == Pop(k3, |k.ss| - h);
      if n == 0 {
        status := Aborted;
      } else {
        assert n == t.Action(k.ss[h - 1], t.errTok).state;
        Push(n, Leaf(t.errTok), allocates);
      }
    }

    /** The state that `state` shifts `error` to, or 0. */
    method ErrorTarget(state: nat) returns (n: nat)
      requires t.Sized() && state < t.NStates()
      ensures n > 0 <==> ShiftsError(t, state)
      ensures n > 0 ==> t.Action(state, t.errTok) == ShiftTo(n)
    {
      var i := t.pact[state];
      if i != t.pactNinf {
        i := i + t.errTok;
        if 0 <= i && i <= t.last && t.check[i] == t.errTok {
          i := t.table[i];
          if 0 < i {
            return i;
          }
        }
      }
      return 0;
    }

    /** The loop at label `yyerrlab1`: pop down to a state that shifts `error`; the result is the
        state it shifts to, or 0 with only the bottom state left. */
    method PopToError() returns (n: nat)
      requires Shape() && t.Sized()
      requires forall i | 0 <= i <= sp :: ss[i] < t.NStates()
      modifies this`sp
      ensures Shape() && sp <= old(sp)
      ensures Abs() == Pop(old(Abs()), old(sp) - sp)
      ensures var h := ErrorHeight(t, old(Abs()).ss, old(sp) + 1);
        if h == 0 then n == 0 && sp == 0
        else n > 0 && sp + 1 == h && ShiftTo(n) == t.Action(old(Abs()).ss[h - 1], t.errTok)
    {
      hide ShiftsError, t.Sized;
      ghost var states := Abs().ss;
      while true
        invariant sp <= old(sp)
        invariant ErrorHeight(t, states, old(sp) + 1) == ErrorHeight(t, states, sp + 1)
        decreases sp
      {
        assert states[sp] == ss[sp];
        n := ErrorTarget(ss[sp]);
        if 0 < n {
          return;
        }
        if sp == 0 {
          return;
        }
        sp := sp - 1;
      }
    }
  }

  lemma RuleInRange(t: Tables, r: nat)
    requires t.Sized() && t.IsRule(r)
    ensures r < |t.r1| && r < |t.r2| && t.nTokens <= t.r1[r] < t.nTokens + |t.pgoto|
  {
  }
}
