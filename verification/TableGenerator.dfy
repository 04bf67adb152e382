/** `tables_generate`: from what the states call for to the tables, which yield exactly that. */
module TableGenerator {
  import opened LrTables
  import opened PackedTables
  import opened ActionRows
  import opened TableOutput

  /** A transition from state `from` on a nonterminal. */
  datatype Goto = Goto(from: nat, to: nat)

  /** Gotos on one nonterminal, in the order of `from_state`. */
  predicate Ascending(gs: seq<Goto>) {
    && (forall i | 0 <= i < |gs| :: 0 < gs[i].to && gs[i].from < -ERROR)
    && forall i, j | 0 <= i < j < |gs| :: gs[i].from < gs[j].from
  }

  function To(gs: seq<Goto>, s: nat): nat {
    if gs == [] then 0 else if gs[|gs| - 1].to == s then 1 + To(gs[..|gs| - 1], s) else To(gs[..|gs| - 1], s)
  }

  /** `default_goto`: the state that most gotos lead to, or -1 if there are none. */
  method DefaultGoto(gs: seq<Goto>, nstates: nat) returns (d: int)
    requires forall i | 0 <= i < |gs| :: gs[i].to < nstates
    ensures gs == [] ==> d == -1
    ensures gs != [] ==> 0 <= d < nstates && To(gs, d) > 0 && forall s | 0 <= s < nstates :: To(gs, s) <= To(gs, d)
  {
    d := -1;
    if |gs| == 0 {
      return;
    }
    var count := new nat[nstates](_ => 0);
    for i := 0 to |gs|
      invariant forall s | 0 <= s < nstates :: count[s] == To(gs[..i], s)
    {
      assert gs[..i + 1][..i] == gs[..i];
      count[gs[i].to] := count[gs[i].to] + 1;
    }
    assert gs[..|gs|] == gs;
    assert To(gs, gs[|gs| - 1].to) > 0;
    var max := 0;
    for s := 0 to nstates
      invariant d < s && (d == -1 <==> max == 0) && d >= -1
      invariant d >= 0 ==> To(gs, d) == max
      invariant forall r | 0 <= r < s :: To(gs, r) <= max
    {
      if count[s] > max {
        max, d := count[s], s;
      }
    }
  }

  /** The gotos that do not lead to `d`, as a column. */
  ghost predicate Column(gs: seq<Goto>, d: int, v: Vector) {
    && IsVector(v) && |v.froms| <= |gs|
    && (forall k | 0 <= k < |v.froms| :: v.tos[k] > 0 && v.froms[k] < -ERROR)
    && (forall k | 0 <= k < |v.froms| :: exists i :: 0 <= i < |gs| && gs[i].from == v.froms[k] && gs[i].to == v.tos[k])
    && forall i | 0 <= i < |gs| && gs[i].to != d :: gs[i].from in v.froms
  }

  /** `save_column`. */
  method SaveColumn(gs: seq<Goto>, d: int) returns (v: Vector)
    requires Ascending(gs)
    ensures Column(gs, d, v)
  {
    v := Vector([], [], []);
    for i := 0 to |gs|
      invariant Column(gs[..i], d, v)
    {
      ghost var u := v;
      if gs[i].to != d {
        v := Vector(v.froms + [gs[i].from], v.tos + [gs[i].to], v.conflicts + [0]);
      }
      ColumnNext(gs, d, u, v, i);
    }
    assert gs[..|gs|] == gs;
  }

  lemma ColumnNext(gs: seq<Goto>, d: int, u: Vector, v: Vector, i: nat)
    requires i < |gs| && Ascending(gs) && Column(gs[..i], d, u)
    requires v == if gs[i].to != d then Vector(u.froms + [gs[i].from], u.tos + [gs[i].to], u.conflicts + [0]) else u
    ensures Column(gs[..i + 1], d, v)
  {
    var before, after := gs[..i], gs[..i + 1];
    assert after[i] == gs[i] && forall j | 0 <= j < i :: after[j] == before[j];
    forall k | 0 <= k < |v.froms|
      ensures exists j :: 0 <= j < |after| && after[j].from == v.froms[k] && after[j].to == v.tos[k]
      ensures k < |u.froms| ==> v.froms[k] < gs[i].from
    {
      if k < |u.froms| {
        var j :| 0 <= j < |before| && before[j].from == u.froms[k] && before[j].to == u.tos[k];
        assert after[j] == before[j];
      } else {
        assert after[i].from == v.froms[k];
      }
    }
    forall j | 0 <= j < |after| && after[j].to != d
      ensures after[j].from in v.froms
    {
      if j < i {
        assert before[j].from in u.froms;
      } else {
        assert v.froms[|u.froms|] == gs[i].from;
      }
    }
  }

  /** What becomes of state `s`: its row and its default reduction. */
  ghost predicate RowOf(o: Settings, s: State, v: Vector, d: nat, lists: seq<nat>) {
    && IsVector(v) && (exists row :: Called(o, s, row) && IsDefault(o, s, row, d))
    && (forall k | 0 <= k < |v.froms| :: v.froms[k] < o.ntokens)
    && forall token: nat | token < o.ntokens :: EntryOf(o, s, v, d, token, lists)
  }

  /** The entry of a token in a row, or 0. */
  function At(v: Vector, token: nat): (int, nat)
    requires IsVector(v)
  {
    var k := Index(v.froms, token);
    if k < |v.froms| then (v.tos[k], v.conflicts[k]) else (0, 0)
  }

  predicate EntryOf(o: Settings, s: State, v: Vector, d: nat, token: nat, lists: seq<nat>)
    requires IsVector(v)
  {
    var (act, confl) := At(v, token);
    && act == Remaining(o, s, d, Wanted(s, token), if Torn(s, token) then 1 else 0)
    && if o.glr && Torn(s, token) && act != 0 then confl > 0 && ListedAt(lists, confl, Rivals(s.reductions, token, act))
       else confl == 0
  }

  lemma SavedRow(o: Settings, s: State, v: Vector, d: nat, actrow: seq<int>, conflrow: seq<nat>, lists: seq<nat>)
    requires |actrow| == |conflrow| == o.ntokens && Saves(o, v, actrow, conflrow, o.ntokens)
    requires forall j: nat | j < o.ntokens :: FinalAt(o, s, d, j, actrow[j], conflrow[j], lists)
    requires exists row :: Called(o, s, row) && IsDefault(o, s, row, d)
    ensures RowOf(o, s, v, d, lists)
  {
    hide Wanted, Torn, Remaining, Rivals, ListedAt, IsDefault, Called;
    forall token: nat | token < o.ntokens
      ensures EntryOf(o, s, v, d, token, lists)
    {
      assert FinalAt(o, s, d, token, actrow[token], conflrow[token], lists);
      var k := Index(v.froms, token);
      if k == |v.froms| { assert actrow[token] == 0; }
    }
  }

  lemma RowMore(o: Settings, s: State, v: Vector, d: nat, lists: seq<nat>, lists': seq<nat>)
    requires RowOf(o, s, v, d, lists) && lists <= lists'
    ensures RowOf(o, s, v, d, lists')
  {
    hide Wanted, Torn, Remaining, Rivals, ListedAt, IsDefault, Called;
    forall token: nat | token < o.ntokens
      ensures EntryOf(o, s, v, d, token, lists')
    {
      assert EntryOf(o, s, v, d, token, lists);
      var (act, confl) := At(v, token);
      if o.glr && Torn(s, token) && act != 0 { ListedMore(lists, lists', confl, Rivals(s.reductions, token, act)); }
    }
  }

  /** `token_actions`. */
  method TokenActions(o: Settings, states: seq<State>) returns (rows: seq<Vector>, defact: seq<nat>, lists: seq<nat>)
    requires forall i | 0 <= i < |states| :: Proper(o, states[i])
    ensures |rows| == |defact| == |states| && |lists| > 0 && lists[0] == 0
    ensures forall i | 0 <= i < |states| :: RowOf(o, states[i], rows[i], defact[i], lists)
  {
    hide RowOf, Proper, FinalAt, IsDefault;
    rows, defact, lists := [], [], [0];
    var actrow := new int[o.ntokens](_ => 0);
    var conflrow := new nat[o.ntokens](_ => 0);
    for i := 0 to |states|
      invariant |rows| == |defact| == i && |lists| > 0 && lists[0] == 0
      invariant forall j | 0 <= j < i :: RowOf(o, states[j], rows[j], defact[j], lists)
    {
      ghost var shorter := lists;
      var d;
      d, lists := ActionRow(o, states[i], actrow, conflrow, lists);
      EntriesRange(o, states[i], d, actrow[..], conflrow[..], lists);
      var v := SaveRow(o, actrow, conflrow);
      SavedRow(o, states[i], v, d, actrow[..], conflrow[..], lists);
      forall j | 0 <= j < i
        ensures RowOf(o, states[j], rows[j], defact[j], lists)
      {
        RowMore(o, states[j], rows[j], defact[j], shorter, lists);
      }
      rows, defact := rows + [v], defact + [d];
    }
  }

  lemma EntriesRange(o: Settings, s: State, d: nat, actrow: seq<int>, conflrow: seq<nat>, lists: seq<nat>)
    requires Proper(o, s) && |actrow| == |conflrow| == o.ntokens
    requires forall j: nat | j < o.ntokens :: FinalAt(o, s, d, j, actrow[j], conflrow[j], lists)
    ensures forall j | 0 <= j < |actrow| :: actrow[j] >= ERROR
  {
    hide Torn, Rivals, ListedAt, Claims, FirstRule, ShiftOn;
    forall j: nat | j < |actrow|
      ensures actrow[j] >= ERROR
    {
      assert FinalAt(o, s, d, j, actrow[j], conflrow[j], lists);
      FirstRange(s.reductions, j);
    }
  }

  lemma {:induction false} FirstRange(rs: seq<Reduction>, token: nat)
    requires forall i | 0 <= i < |rs| :: 0 < rs[i].rule < -ERROR
    ensures FirstRule(rs, token) < -ERROR
    decreases |rs|
  {
    if rs != [] { FirstRange(rs[1..], token); }
  }

  /** `goto_actions`. */
  method GotoActions(gotos: seq<seq<Goto>>, nstates: nat) returns (columns: seq<Vector>, defgoto: seq<int>)
    requires forall n | 0 <= n < |gotos| :: Ascending(gotos[n]) && forall g | g in gotos[n] :: g.to < nstates
    ensures |columns| == |defgoto| == |gotos|
    ensures forall n | 0 <= n < |gotos| :: Column(gotos[n], defgoto[n], columns[n])
  {
    hide Ascending, Column;
    columns, defgoto := [], [];
    for n := 0 to |gotos|
      invariant |columns| == |defgoto| == n
      invariant forall m | 0 <= m < n :: Column(gotos[m], defgoto[m], columns[m])
    {
      assert forall i | 0 <= i < |gotos[n]| :: gotos[n][i] in gotos[n];
      var d := DefaultGoto(gotos[n], nstates);
      var v := SaveColumn(gotos[n], d);
      columns, defgoto := columns + [v], defgoto + [d];
    }
  }

  lemma RowNumbered(o: Settings, s: State, v: Vector, d: nat, lists: seq<nat>)
    requires RowOf(o, s, v, d, lists) && o.ntokens <= -ERROR
    ensures Numbered(v)
  {
  }

  lemma ColumnNumbered(gs: seq<Goto>, d: int, v: Vector)
    requires Column(gs, d, v)
    ensures Numbered(v)
  {
  }

  /** The tables come from the states and gotos given. */
  ghost predicate Generated(o: Settings, states: seq<State>, gotos: seq<seq<Goto>>, t: Tables, conflp: seq<nat>,
                            confl: seq<nat>) {
    && |t.pact| == |t.defact| == |states| && |t.pgoto| == |t.defgoto| == |gotos|
    && |confl| > 0 && confl[0] == 0
    && exists vs :: Packs(t, conflp, vs) && Comes(o, states, gotos, t, confl, vs)
  }

  ghost predicate Comes(o: Settings, states: seq<State>, gotos: seq<seq<Goto>>, t: Tables, confl: seq<nat>,
                        vs: seq<Vector>)
    requires |t.defact| == |states| && |t.defgoto| == |gotos|
  {
    && |vs| == |states| + |gotos|
    && (forall i | 0 <= i < |states| :: RowOf(o, states[i], vs[i], t.defact[i], confl))
    && forall n | 0 <= n < |gotos| :: Column(gotos[n], t.defgoto[n], vs[|states| + n])
  }

  /** `tables_generate`; it fails only if the packing comes to the end of full arrays. */
  method TablesGenerate(o: Settings, states: seq<State>, gotos: seq<seq<Goto>>, rest: Tables, size: nat)
    returns (ok: bool, t: Tables, conflp: seq<nat>, confl: seq<nat>)
    requires size > 0 && o.ntokens <= -ERROR && forall i | 0 <= i < |states| :: Proper(o, states[i])
    requires forall n | 0 <= n < |gotos| :: Ascending(gotos[n]) && forall g | g in gotos[n] :: g.to < |states|
    ensures ok ==> Generated(o, states, gotos, t, conflp, confl)
    ensures ok ==> |t.table| == |t.check| == |conflp| == t.last + 1 && t.tableNinf < 0
  {
    hide Packs, RowOf, Column, Numbered, Proper, Ascending;
    var rows, defact, columns, defgoto;
    rows, defact, confl := TokenActions(o, states);
    columns, defgoto := GotoActions(gotos, |states|);
    var vs := rows + columns;
    forall u: nat | u < |vs|
      ensures Numbered(vs[u])
    {
      if u < |rows| {
        RowNumbered(o, states[u], rows[u], defact[u], confl);
      } else {
        ColumnNumbered(gotos[u - |rows|], defgoto[u - |rows|], columns[u - |rows|]);
      }
    }
    ok, t, conflp := Emit(vs, rest.(defact := defact, defgoto := defgoto), size);
    if ok {
      EmittedSizes(t, conflp, vs);
      assert Comes(o, states, gotos, t, confl, vs);
    }
  }

  lemma EmittedSizes(t: Tables, conflp: seq<nat>, vs: seq<Vector>)
    requires Packs(t, conflp, vs)
    ensures |vs| == |t.pact| + |t.pgoto|
  {
  }

  /** The action that a state takes on a token: the one wanted, or else its default. */
  function Due(s: State, d: nat, token: nat): Action {
    if Wanted(s, token) != 0 then Meant(Wanted(s, token)) else if d > 0 then ReduceBy(d) else Fail
  }

  /** The tables make a parser do in every state on every token what the state calls for: an error where `%nonassoc`
      wants one, else the shift, else the first rule whose lookaheads have the token, else the default. */
  lemma GeneratedAction(o: Settings, states: seq<State>, gotos: seq<seq<Goto>>, t: Tables, conflp: seq<nat>,
                        confl: seq<nat>, s: nat, token: nat)
    requires t.Sized() && Generated(o, states, gotos, t, conflp, confl) && s < |states| && token < o.ntokens
    requires Proper(o, states[s])
    ensures t.Action(s, token) == Due(states[s], t.defact[s], token)
  {
    hide Packs, Column, Torn, Claims, FirstRule, ShiftOn, Rivals, ListedAt, IsDefault, Called, t.Sized, t.Action;
    var vs :| Packs(t, conflp, vs) && Comes(o, states, gotos, t, confl, vs);
    ActionDecodes(t, conflp, vs, s, token);
    assert EntryOf(o, states[s], vs[s], t.defact[s], token, confl);
    FirstRange(states[s].reductions, token);
    DefaultRange(o, states[s], vs[s], t.defact[s], confl);
  }

  lemma DefaultRange(o: Settings, s: State, v: Vector, d: nat, lists: seq<nat>)
    requires RowOf(o, s, v, d, lists) && Proper(o, s)
    ensures d < -ERROR
  {
    hide Called, ShiftOn, EntryOf;
    var row :| Called(o, s, row) && IsDefault(o, s, row, d);
  }

  /** The goto of a state is the one that it has. */
  lemma GeneratedGoto(o: Settings, states: seq<State>, gotos: seq<seq<Goto>>, t: Tables, conflp: seq<nat>,
                      confl: seq<nat>, n: nat, i: nat)
    requires t.Sized() && Generated(o, states, gotos, t, conflp, confl) && n < |gotos| && i < |gotos[n]|
    requires Ascending(gotos[n])
    ensures t.Goto(gotos[n][i].from, t.nTokens + n) == gotos[n][i].to
  {
    hide Packs, RowOf, t.Sized, t.Goto;
    var vs :| Packs(t, conflp, vs) && Comes(o, states, gotos, t, confl, vs);
    var v := vs[|states| + n];
    assert Column(gotos[n], t.defgoto[n], v);
    GotoDecodes(t, conflp, vs, gotos[n][i].from, t.nTokens + n);
    var k := Index(v.froms, gotos[n][i].from);
    if k < |v.froms| {
      var j :| 0 <= j < |gotos[n]| && gotos[n][j].from == v.froms[k] && gotos[n][j].to == v.tos[k];
      assert j == i;
    }
  }

  /** What the tables hold beside the rows and columns is in order. */
  ghost predicate Framed(o: Settings, states: seq<State>, gotos: seq<seq<Goto>>, t: Tables) {
    && |t.stos| == |states| > 0 && |t.r1| == |t.r2| > ACCEPT && o.ntokens == t.nTokens
    && EOF < t.nTokens && t.undefTok < t.nTokens && EOF < t.errTok < t.nTokens
    && (forall r | 0 < r < |t.r1| :: t.nTokens <= t.r1[r] < t.nTokens + |gotos|)
    && forall s, i | 0 <= s < |states| && 0 <= i < |states[s].reductions| :: states[s].reductions[i].rule < |t.r1|
  }

  /** Generated tables are within the ranges that the parsers rely on. */
  lemma GeneratedSized(o: Settings, states: seq<State>, gotos: seq<seq<Goto>>, t: Tables, conflp: seq<nat>,
                       confl: seq<nat>)
    requires Generated(o, states, gotos, t, conflp, confl) && Framed(o, states, gotos, t)
    requires |t.table| == |t.check| == t.last + 1 && t.tableNinf < 0
    requires forall s | 0 <= s < |states| :: Proper(o, states[s])
    ensures t.Sized()
  {
    hide Packs, RowOf, Column, Proper;
    var vs :| Packs(t, conflp, vs) && Comes(o, states, gotos, t, confl, vs);
    forall s | 0 <= s < |t.pact|
      ensures t.defact[s] < |t.r1|
    {
      assert RowOf(o, states[s], vs[s], t.defact[s], confl);
      DefaultBelow(o, states[s], vs[s], t.defact[s], confl, |t.r1|);
    }
    forall i | 0 <= i <= t.last && t.check[i] >= 0
      ensures -|t.r1| < t.table[i] || t.table[i] == t.tableNinf
    {
      UsedCell(o, states, gotos, t, conflp, confl, vs, i);
    }
  }

  lemma DefaultBelow(o: Settings, s: State, v: Vector, d: nat, lists: seq<nat>, n: nat)
    requires RowOf(o, s, v, d, lists) && n > 0 && forall i | 0 <= i < |s.reductions| :: s.reductions[i].rule < n
    ensures d < n
  {
    hide Called, ShiftOn, EntryOf;
    var row :| Called(o, s, row) && IsDefault(o, s, row, d);
  }

  lemma UsedCell(o: Settings, states: seq<State>, gotos: seq<seq<Goto>>, t: Tables, conflp: seq<nat>, confl: seq<nat>,
                 vs: seq<Vector>, i: nat)
    requires |t.pact| == |t.defact| == |states| && |t.pgoto| == |t.defgoto| == |gotos|
    requires Packs(t, conflp, vs) && Comes(o, states, gotos, t, confl, vs) && Framed(o, states, gotos, t)
    requires |t.table| == |t.check| == t.last + 1 && i <= t.last && t.check[i] >= 0
    requires forall s | 0 <= s < |states| :: Proper(o, states[s])
    ensures -|t.r1| < t.table[i] || t.table[i] == t.tableNinf
  {
    hide RowOf, Column, Proper;
    assert OwnedAt(t, vs, i);
    var u: nat :| u < |vs| && Covers(vs[u], Base(t, u), i, t.check[i]);
    var k: nat :| k < |vs[u].froms| && Base(t, u) + vs[u].froms[k] == i && vs[u].froms[k] == t.check[i];
    assert HoldsAt(t, conflp, vs[u], Base(t, u), k);
    if u < |states| {
      RowEntry(o, states[u], vs[u], t.defact[u], confl, k, |t.r1|);
    } else {
      assert Column(gotos[u - |states|], t.defgoto[u - |states|], vs[|states| + (u - |states|)]);
      ColumnEntry(gotos[u - |states|], t.defgoto[u - |states|], vs[u], k);
    }
  }

  lemma ColumnEntry(gs: seq<Goto>, d: int, v: Vector, k: nat)
    requires Column(gs, d, v) && k < |v.froms|
    ensures |v.tos| == |v.froms| && v.tos[k] > 0
  {
  }

  /** An entry of a row is an error, a shift or a rule of the grammar. */
  lemma RowEntry(o: Settings, s: State, v: Vector, d: nat, lists: seq<nat>, k: nat, n: nat)
    requires RowOf(o, s, v, d, lists) && k < |v.froms| && n > 0 && Proper(o, s)
    requires forall i | 0 <= i < |s.reductions| :: s.reductions[i].rule < n
    ensures |v.tos| == |v.froms| && (v.tos[k] == ERROR || v.tos[k] + n > 0)
  {
    hide Called, IsDefault, Torn, Rivals, ListedAt, ShiftOn, FirstRule;
    var token := v.froms[k];
    IndexAt(v.froms, token, k);
    assert EntryOf(o, s, v, d, token, lists);
    FirstBelow(s.reductions, token, n);
  }

  lemma {:induction false} FirstBelow(rs: seq<Reduction>, token: nat, n: nat)
    requires n > 0 && forall i | 0 <= i < |rs| :: rs[i].rule < n
    ensures FirstRule(rs, token) < n
    decreases |rs|
  {
    if rs != [] { FirstBelow(rs[1..], token, n); }
  }
}
