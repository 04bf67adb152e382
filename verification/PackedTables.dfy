/** Row displacement: how the rows of actions and the columns of gotos lie on top of each other in `yytable`, and that
    `yypact`, `yycheck` and `yydefact` get every one of them back. */
module PackedTables {
  import opened LrTables

  /** ACTION_NUMBER_MINIMUM, an explicit error. */
  const ERROR: int := -0x8000_0000

  /** A row of explicit actions by token, or a column of gotos by state: for each `froms[k]` there is an entry `tos[k]`
      and, in a row, the start of a list of conflicting rules or 0. */
  datatype Vector = Vector(froms: seq<nat>, tos: seq<int>, conflicts: seq<nat>)

  predicate IsVector(v: Vector) {
    && |v.froms| == |v.tos| == |v.conflicts|
    && (forall k | 0 <= k < |v.froms| :: v.tos[k] != 0 && v.tos[k] >= ERROR)
    && forall k, l | 0 <= k < l < |v.froms| :: v.froms[k] < v.froms[l]
  }

  /** The number of the entry for `f`, or the number of entries. */
  function Index(froms: seq<nat>, f: nat): (k: nat)
    ensures k <= |froms| && (k < |froms| ==> froms[k] == f)
    ensures k == |froms| ==> f !in froms
  {
    if froms == [] || froms[0] == f then 0 else 1 + Index(froms[1..], f)
  }

  /** What an entry of a row stands for. */
  function Meant(to: int): Action {
    if to == ERROR then Fail else if to > 0 then ShiftTo(to) else ReduceBy(-to)
  }

  /** The explicit error is renumbered in the table that is emitted. */
  function Encoded(t: Tables, to: int): int {
    if to == ERROR then t.tableNinf else to
  }

  /** The displacement of a row, that of state `u`, or of a column, that of nonterminal `u - t.NStates()`. */
  function Base(t: Tables, u: nat): int {
    if u < |t.pact| then t.pact[u] else if u - |t.pact| < |t.pgoto| then t.pgoto[u - |t.pact|] else 0
  }

  /** Entry `k` of vector `v` is found at its place. */
  predicate HoldsAt(t: Tables, conflp: seq<nat>, v: Vector, base: int, k: nat)
    requires IsVector(v) && k < |v.froms|
  {
    var i := base + v.froms[k];
    && 0 <= i <= t.last && i < |t.table| && i < |t.check| && i < |conflp|
    && t.table[i] == Encoded(t, v.tos[k]) && t.check[i] == v.froms[k] && conflp[i] == v.conflicts[k]
  }

  predicate Covers(v: Vector, base: int, i: int, f: int) {
    exists k :: 0 <= k < |v.froms| && base + v.froms[k] == i && v.froms[k] == f
  }

  /** Position `i` is used, if it is, for an entry of one of the vectors. */
  ghost predicate OwnedAt(t: Tables, vs: seq<Vector>, i: nat)
    requires i < |t.check|
  {
    t.check[i] >= 0 ==> exists u: nat :: u < |vs| && Covers(vs[u], Base(t, u), i, t.check[i])
  }

  /** The tables hold the vectors `vs`, and nothing else; only equal vectors have the same displacement; the numbers
      that stand for an empty vector and for an explicit error are used for nothing else. */
  ghost predicate Packs(t: Tables, conflp: seq<nat>, vs: seq<Vector>) {
    && |vs| == |t.pact| + |t.pgoto|
    && (forall u: nat | u < |vs| :: IsVector(vs[u]))
    && (forall u: nat, k: nat | u < |vs| && k < |vs[u].froms| :: HoldsAt(t, conflp, vs[u], Base(t, u), k))
    && (forall u: nat | u < |vs| :: if vs[u].froms == [] then Base(t, u) == t.pactNinf else Base(t, u) > t.pactNinf)
    && (forall u: nat, v: nat | u < |vs| && v < |vs| && Base(t, u) == Base(t, v) :: vs[u] == vs[v])
    && (forall i: nat | i <= t.last && i < |t.check| :: OwnedAt(t, vs, i))
    && forall u: nat, k: nat | u < |vs| && k < |vs[u].froms| && vs[u].tos[k] != ERROR :: vs[u].tos[k] > t.tableNinf
  }

  lemma {:induction false} IndexAt(froms: seq<nat>, f: nat, k: nat)
    requires k < |froms| && froms[k] == f && forall i, j | 0 <= i < j < |froms| :: froms[i] < froms[j]
    ensures Index(froms, f) == k
    decreases k
  {
    if k > 0 { IndexAt(froms[1..], f, k - 1); }
  }

  /** A position of vector `u` that `yycheck` confirms is one of its entries. */
  lemma Confirmed(t: Tables, conflp: seq<nat>, vs: seq<Vector>, u: nat, f: nat)
    requires Packs(t, conflp, vs) && t.last < |t.check| && u < |vs|
    requires 0 <= Base(t, u) + f <= t.last && t.check[Base(t, u) + f] == f
    ensures f in vs[u].froms
  {
    var i := Base(t, u) + f;
    assert OwnedAt(t, vs, i);
    var v: nat :| v < |vs| && Covers(vs[v], Base(t, v), i, t.check[i]);
    var k :| 0 <= k < |vs[v].froms| && Base(t, v) + vs[v].froms[k] == i && vs[v].froms[k] == f;
    assert Base(t, v) == Base(t, u);
  }

  /** The position of an entry of vector `u`. */
  lemma Located(t: Tables, conflp: seq<nat>, vs: seq<Vector>, u: nat, f: nat)
    requires Packs(t, conflp, vs) && u < |vs| && f in vs[u].froms
    ensures IsVector(vs[u]) && Index(vs[u].froms, f) < |vs[u].froms|
    ensures HoldsAt(t, conflp, vs[u], Base(t, u), Index(vs[u].froms, f))
    ensures Base(t, u) > t.pactNinf
  {
  }

  /** The action that the tables yield for a state and a token is the entry of the row for it, or the default of the
      state where the row has none. */
  lemma ActionDecodes(t: Tables, conflp: seq<nat>, vs: seq<Vector>, s: nat, token: nat)
    requires t.Sized() && Packs(t, conflp, vs) && s < t.NStates()
    ensures t.Action(s, token) ==
      if token in vs[s].froms then Meant(vs[s].tos[Index(vs[s].froms, token)]) else t.Default(s)
    ensures t.IsDefaulted(s) <==> vs[s].froms == []
  {
    hide Packs;
    RowFacts(t, conflp, vs, s);
    if token in vs[s].froms {
      Located(t, conflp, vs, s, token);
      EntryRange(t, conflp, vs, s, Index(vs[s].froms, token));
    } else if 0 <= t.pact[s] + token <= t.last && t.check[t.pact[s] + token] == token {
      Confirmed(t, conflp, vs, s, token);
      assert false;
    }
  }

  lemma RowFacts(t: Tables, conflp: seq<nat>, vs: seq<Vector>, u: nat)
    requires Packs(t, conflp, vs)
    ensures |vs| == |t.pact| + |t.pgoto|
    ensures u < |vs| ==> IsVector(vs[u]) && (vs[u].froms == [] <==> Base(t, u) == t.pactNinf)
  {
  }

  lemma EntryRange(t: Tables, conflp: seq<nat>, vs: seq<Vector>, u: nat, k: nat)
    requires Packs(t, conflp, vs) && u < |vs| && k < |vs[u].froms|
    ensures IsVector(vs[u]) && vs[u].tos[k] != 0 && (vs[u].tos[k] != ERROR ==> vs[u].tos[k] > t.tableNinf)
  {
  }

  /** The state entered from `s` on a nonterminal is the entry of the column for `s`, or the default one. */
  lemma GotoDecodes(t: Tables, conflp: seq<nat>, vs: seq<Vector>, s: nat, lhs: nat)
    requires t.Sized() && Packs(t, conflp, vs) && t.nTokens <= lhs < t.nTokens + |t.pgoto|
    requires ERROR !in vs[|t.pact| + lhs - t.nTokens].tos
    ensures var v := vs[|t.pact| + lhs - t.nTokens];
      t.Goto(s, lhs) == if s in v.froms then v.tos[Index(v.froms, s)] else t.defgoto[lhs - t.nTokens]
  {
    hide Packs;
    var u := |t.pact| + lhs - t.nTokens;
    RowFacts(t, conflp, vs, u);
    if s in vs[u].froms {
      Located(t, conflp, vs, u, s);
    } else if 0 <= Base(t, u) + s <= t.last && t.check[Base(t, u) + s] == s {
      Confirmed(t, conflp, vs, u, s);
      assert false;
    }
  }

  /** What `yyconflp` has for a state and a token, as `yygetLRActions` reads it. */
  function ConflictStart(t: Tables, conflp: seq<nat>, s: nat, token: nat): nat
    requires t.Sized() && s < t.NStates()
  {
    var i := t.pact[s] + token;
    if t.IsDefaulted(s) || i < 0 || t.last < i || t.check[i] != token || i >= |conflp| then 0 else conflp[i]
  }

  /** It is that of the entry of the row, or 0 where the row has none. */
  lemma ConflictDecodes(t: Tables, conflp: seq<nat>, vs: seq<Vector>, s: nat, token: nat)
    requires t.Sized() && Packs(t, conflp, vs) && s < t.NStates()
    ensures s < |vs| && IsVector(vs[s])
    ensures ConflictStart(t, conflp, s, token) ==
      if token in vs[s].froms then vs[s].conflicts[Index(vs[s].froms, token)] else 0
  {
    hide Packs;
    RowFacts(t, conflp, vs, s);
    if token in vs[s].froms {
      Located(t, conflp, vs, s, token);
    } else if 0 <= t.pact[s] + token <= t.last && t.check[t.pact[s] + token] == token {
      Confirmed(t, conflp, vs, s, token);
      assert false;
    }
  }
}
