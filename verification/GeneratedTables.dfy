/** What the parsers do with generated tables: on every token exactly what the state calls for. */
module GeneratedTables {
  import opened Grammar
  import opened LrTables
  import opened PackedTables
  import opened ActionRows
  import opened TableGenerator
  import ParserMachine
  import ErrorRecovery
  import Lac
  import GlrRun

  /** The tables of a parser have been generated from `states` and `gotos`. */
  ghost predicate Made(o: Settings, states: seq<State>, gotos: seq<seq<Goto>>, t: Tables, conflp: seq<nat>,
                       confl: seq<nat>) {
    && t.Sized() && Generated(o, states, gotos, t, conflp, confl) && o.ntokens == t.nTokens
    && forall i | 0 <= i < |states| :: Proper(o, states[i])
  }

  lemma MadeAction(o: Settings, states: seq<State>, gotos: seq<seq<Goto>>, t: Tables, conflp: seq<nat>,
                   confl: seq<nat>, s: nat, token: nat)
    requires Made(o, states, gotos, t, conflp, confl) && s < t.NStates() && token < t.nTokens
    ensures s < |states| && t.Action(s, token) == Due(states[s], t.defact[s], token)
  {
    hide t.Sized, t.Action, Due, Comes, Packs, Proper;
    GeneratedAction(o, states, gotos, t, conflp, confl, s, token);
  }

  /** The token that the parser has in hand or reads next. */
  function Facing(k: ParserMachine.Config): nat {
    if k.look.Tok? then k.look.token else TokenAt(k.text, k.pos)
  }

  /** The main loop of `yyparse` takes the action that the state calls for on the token, whether or not it reads it. */
  lemma DecideDue(o: Settings, states: seq<State>, gotos: seq<seq<Goto>>, t: Tables, c: Certificate, conflp: seq<nat>,
                  confl: seq<nat>, k: ParserMachine.Config)
    requires Made(o, states, gotos, t, conflp, confl) && ParserMachine.CanStep(t, c, k)
    ensures k.Top() < t.NStates() == |states| == |t.defact|
    ensures ParserMachine.Decide(t, k).1 == Due(states[k.Top()], t.defact[k.Top()], Facing(k))
  {
    hide t.Sized, Due, Comes, Packs, Proper, Checked, IsPath;
    ParserMachine.Decided(t, c, k);
    ParserMachine.ReadSound(t, c, k);
    MadeAction(o, states, gotos, t, conflp, confl, k.Top(), Facing(k));
  }

  /** A token that is an explicit error in a state leads to `yyerrlab` at once: no reduction is made on it. */
  lemma ErrorEntryErrs(o: Settings, states: seq<State>, gotos: seq<seq<Goto>>, t: Tables, c: Certificate,
                       conflp: seq<nat>, confl: seq<nat>, k: ParserMachine.Config)
    requires Made(o, states, gotos, t, conflp, confl) && ParserMachine.CanStep(t, c, k)
    requires k.Top() < |states| && Facing(k) in states[k.Top()].errors
    ensures ErrorRecovery.Happens(t, c, k).Erred?
  {
    hide t.Sized, Comes, Packs, Proper, Checked, IsPath;
    DecideDue(o, states, gotos, t, c, conflp, confl, k);
  }

  /** The exploration of `yy_lac` takes the same action. */
  lemma ActDue(o: Settings, states: seq<State>, gotos: seq<seq<Goto>>, t: Tables, c: Certificate, conflp: seq<nat>,
               confl: seq<nat>, ss: seq<nat>, token: nat)
    requires Made(o, states, gotos, t, conflp, confl) && Lac.Live(t, c, ss, token)
    ensures |ss| > 0 && ss[|ss| - 1] < t.NStates() == |states| == |t.defact|
    ensures match Due(states[ss[|ss| - 1]], t.defact[ss[|ss| - 1]], token)
      case ShiftTo(_) => Lac.Act(t, c, ss, token) == Lac.Shifts
      case Fail => Lac.Act(t, c, ss, token) == Lac.Errs
      case ReduceBy(r) =>
        && r < |t.r2| && t.r2[r] < |ss|
        && Lac.Act(t, c, ss, token) == Lac.Pending(Lac.Landed(t, ss, r))
  {
    hide Due, Comes, Packs, Proper, Checked, IsPath, t.Goto, t.Action;
    Lac.LiveReduce(t, c, ss, token);
    MadeAction(o, states, gotos, t, conflp, confl, ss[|ss| - 1], token);
  }

  lemma {:induction false} RivalsAll(rs: seq<Reduction>, token: nat, act: int, r: nat)
    ensures r in Rivals(rs, token, act) <==> r in Claims(rs, token) && act != AsItem(r)
    decreases |rs|
  {
    if rs != [] { RivalsAll(rs[1..], token, act, r); }
  }

  /** A list is read up to the 0 at its end. */
  lemma {:induction false} ListRead(d: GlrRun.GlrTables, i: nat, rs: seq<nat>)
    requires ListedAt(d.confl, i, rs) && 0 !in rs
    ensures d.Listed(i) == rs
    decreases |rs|
  {
    if rs != [] {
      assert d.confl[i] == d.confl[i..i + |rs|][0] == rs[0];
      assert d.confl[i + 1..i + 1 + |rs[1..]|] == d.confl[i..i + |rs|][1..] == rs[1..];
      ListRead(d, i + 1, rs[1..]);
    }
  }

  /** The list of conflicts of a GLR parser for a state and a token: all rules that compete with the action, if there
      are any and the entry has not been made superfluous. */
  lemma ConflictsDue(o: Settings, states: seq<State>, gotos: seq<seq<Goto>>, d: GlrRun.GlrTables, s: nat, token: nat)
    requires o.glr && Made(o, states, gotos, d.lr, d.conflp, d.confl) && s < d.lr.NStates() && token < d.lr.nTokens
    ensures s < |states| && |states| == |d.lr.defact|
    ensures var state := states[s];
      var act := Remaining(o, state, d.lr.defact[s], Wanted(state, token), if Torn(state, token) then 1 else 0);
      d.Listed(d.ConflictAt(s, token)) ==
        if Torn(state, token) && act != 0 then Rivals(state.reductions, token, act) else []
  {
    hide d.lr.Sized, Packs, Column, Torn, Wanted, Remaining, IsDefault, Called, Claims, FirstRule, ShiftOn, Rivals,
      ListedAt;
    var t := d.lr;
    var vs :| Packs(t, d.conflp, vs) && Comes(o, states, gotos, t, d.confl, vs);
    ConflictDecodes(t, d.conflp, vs, s, token);
    SameStart(d, s, token);
    assert EntryOf(o, states[s], vs[s], t.defact[s], token, d.confl);
    var (act, confl) := At(vs[s], token);
    if Torn(states[s], token) && act != 0 {
      RivalsPositive(o, states[s], token, act);
      ListRead(d, confl, Rivals(states[s].reductions, token, act));
    } else {
      NoList(d);
    }
  }

  lemma SameStart(d: GlrRun.GlrTables, s: nat, token: nat)
    requires d.lr.Sized() && s < d.lr.NStates()
    ensures d.ConflictAt(s, token) == ConflictStart(d.lr, d.conflp, s, token)
  {
  }

  lemma NoList(d: GlrRun.GlrTables)
    requires |d.confl| > 0 && d.confl[0] == 0
    ensures d.Listed(0) == []
  {
  }

  lemma RivalsPositive(o: Settings, s: State, token: nat, act: int)
    requires Proper(o, s)
    ensures 0 !in Rivals(s.reductions, token, act)
  {
    RulesFirst(s.reductions, token);
    RivalsAll(s.reductions, token, act, 0);
  }

  /** No alternative is lost: on a token that is no explicit error a GLR parser is called to shift it if the state
      shifts it, and to reduce by every rule that has it among its lookaheads. */
  lemma AllCalled(o: Settings, states: seq<State>, gotos: seq<seq<Goto>>, d: GlrRun.GlrTables, s: nat, token: nat)
    requires o.glr && Made(o, states, gotos, d.lr, d.conflp, d.confl) && s < d.lr.NStates() && token < d.lr.nTokens
    requires s < |states| && token !in states[s].errors
    ensures ShiftOn(states[s].shifts, token) > 0 ==>
      d.lr.Action(s, token) == ShiftTo(ShiftOn(states[s].shifts, token))
    ensures forall r | r in Claims(states[s].reductions, token) :: GlrRun.Called(d, s, token, r)
  {
    hide d.lr.Sized, Generated, ShiftOn, Rivals, IsDefault, ActionRows.Called, d.lr.Action, d.Listed, d.ConflictAt;
    var state := states[s];
    MadeAction(o, states, gotos, d.lr, d.conflp, d.confl, s, token);
    ConflictsDue(o, states, gotos, d, s, token);
    RulesFirst(state.reductions, token);
    FirstRange(state.reductions, token);
    var rules := Claims(state.reductions, token);
    forall r | r in rules
      ensures GlrRun.Called(d, s, token, r)
    {
      RivalsAll(state.reductions, token, Wanted(state, token), r);
      if !Torn(state, token) { assert rules == [r]; }
    }
  }
}
