/** The nondeterministic LR automaton of a grammar's tables: a stack of states that shifts, or is reduced by any of the
    rules that the tables list. */
module GlrNondet {
  import opened LrTables
  import opened GlrMachine
  import opened GlrRun

  /** The stack `ss` can be reduced by `r` on `token`. */
  predicate Reducible(d: GlrTables, ss: seq<nat>, token: nat, r: nat) {
    && d.lr.Sized() && ss != [] && ss[|ss| - 1] < d.lr.NStates() && ss[|ss| - 1] != d.lr.final
    && Called(d, ss[|ss| - 1], token, r) && d.lr.IsRule(r) && r < |d.lr.r2| && d.lr.r2[r] < |ss|
    && ss[|ss| - 1 - d.lr.r2[r]] < d.lr.NStates()
  }

  /** The right-hand side is popped, and the goto pushed. */
  function Reduct(t: Tables, ss: seq<nat>, r: nat): seq<nat> {
    if t.Sized() && t.IsRule(r) && t.r2[r] < |ss| then
      ss[..|ss| - t.r2[r]] + [Target(t, ss[|ss| - 1 - t.r2[r]], t.r1[r])]
    else ss
  }

  ghost predicate ReducesTo(d: GlrTables, token: nat, ss: seq<nat>, ss': seq<nat>) {
    exists r: nat :: Reducible(d, ss, token, r) && ss' == Reduct(d.lr, ss, r)
  }

  ghost predicate Reductions(d: GlrTables, token: nat, path: seq<seq<nat>>) {
    path != [] && forall i: nat | i + 1 < |path| :: ReducesTo(d, token, path[i], path[i + 1])
  }

  /** Reductions on `token` lead from `ss` to `ss'`. */
  ghost predicate Becomes(d: GlrTables, token: nat, ss: seq<nat>, ss': seq<nat>) {
    exists path :: Reductions(d, token, path) && path[0] == ss && path[|path| - 1] == ss'
  }

  predicate ShiftsTo(d: GlrTables, ss: seq<nat>, token: nat, s': nat) {
    && d.lr.Sized() && ss != [] && ss[|ss| - 1] < d.lr.NStates() && ss[|ss| - 1] != d.lr.final
    && d.lr.Action(ss[|ss| - 1], token) == ShiftTo(s')
  }

  /** The stacks with which the first `n` tokens can have been read. */
  ghost predicate Reads(d: GlrTables, text: seq<nat>, n: nat, ss: seq<nat>)
    decreases n, 0
  {
    if n == 0 then ss == [0]
    else exists before: seq<nat>, s': nat ::
      Awaits(d, text, n - 1, before) && ShiftsTo(d, before, TokenAt(text, n - 1), s') && ss == before + [s']
  }

  /** The stacks that reductions on token number `n` lead to, when the tokens before it have been read. */
  ghost predicate Awaits(d: GlrTables, text: seq<nat>, n: nat, ss: seq<nat>)
    decreases n, 1
  {
    exists start: seq<nat> :: Reads(d, text, n, start) && Becomes(d, TokenAt(text, n), start, ss)
  }

  lemma BecomesSelf(d: GlrTables, token: nat, ss: seq<nat>)
    ensures Becomes(d, token, ss, ss)
  {
    assert Reductions(d, token, [ss]);
  }

  lemma BecomesLast(d: GlrTables, token: nat, ss: seq<nat>, ss': seq<nat>, ss'': seq<nat>)
    requires Becomes(d, token, ss, ss') && ReducesTo(d, token, ss', ss'')
    ensures Becomes(d, token, ss, ss'')
  {
    hide ReducesTo;
    var path :| Reductions(d, token, path) && path[0] == ss && path[|path| - 1] == ss';
    var longer := path + [ss''];
    forall i: nat | i + 1 < |longer|
      ensures ReducesTo(d, token, longer[i], longer[i + 1])
    {
      if i + 1 < |path| { assert ReducesTo(d, token, path[i], path[i + 1]); }
    }
    assert Reductions(d, token, longer);
  }

  /** A stack is what it is, or something is reduced first. */
  lemma BecomesSplit(d: GlrTables, token: nat, ss: seq<nat>, ss'': seq<nat>) returns (ss': seq<nat>)
    requires Becomes(d, token, ss, ss'') && ss != ss''
    ensures ReducesTo(d, token, ss, ss') && Becomes(d, token, ss', ss'')
  {
    hide ReducesTo;
    var path :| Reductions(d, token, path) && path[0] == ss && path[|path| - 1] == ss'';
    ss' := path[1];
    var rest := path[1..];
    assert ReducesTo(d, token, path[0], path[0 + 1]);
    forall i: nat | i + 1 < |rest|
      ensures ReducesTo(d, token, rest[i], rest[i + 1])
    {
      assert ReducesTo(d, token, path[i + 1], path[i + 1 + 1]);
    }
    assert Reductions(d, token, rest);
  }
}
