/** The compressed LR tables that Bison emits, how both C skeletons read them, and a
    per-state check of the tables against a grammar under which every state stack
    spells out viable right-hand sides. */
module LrTables {
  import opened Grammar

  const EOF := 0
  /** The rule `$accept: start $end`; Bison leaves number 0 unused. */
  const ACCEPT := 1

  /** Token number `i` of a lexer that delivers `text` and then EOF for ever. */
  function TokenAt(text: seq<nat>, i: nat): nat {
    if i < |text| then text[i] else EOF
  }

  /** The first `n` tokens that the lexer delivers. */
  function Delivered(text: seq<nat>, n: nat): seq<nat> {
    seq(n, (i: nat) => TokenAt(text, i))
  }

  datatype Tables = Tables(
    nTokens: nat,           // YYNTOKENS
    last: nat,              // YYLAST
    final: nat,             // YYFINAL
    undefTok: nat,          // YYUNDEFTOK
    errTok: nat,            // YYTERROR
    pactNinf: int,
    tableNinf: int,
    pact: seq<int>,         // yypact, one entry a state
    defact: seq<nat>,       // yydefact, one entry a state
    stos: seq<nat>,         // yystos, one entry a state
    pgoto: seq<int>,        // yypgoto, one entry a nonterminal
    defgoto: seq<int>,      // yydefgoto, one entry a nonterminal; -1 if it has no gotos
    table: seq<int>,        // yytable
    check: seq<int>,        // yycheck
    r1: seq<nat>,           // yyr1, one entry a rule
    r2: seq<nat>            // yyr2, one entry a rule
  ) {
    function NStates(): nat { |pact| }

    /** The arrays have the lengths, and the entries the ranges, that the generator gives them. */
    predicate Sized() {
      && |defact| == |stos| == |pact| > 0
      && |table| == |check| == last + 1
      && |pgoto| == |defgoto|
      && |r1| == |r2| > ACCEPT
      && tableNinf < 0
      && EOF < nTokens && undefTok < nTokens && EOF < errTok < nTokens
      && (forall s | 0 <= s < |pact| :: defact[s] < |r1|)
      && (forall r | 0 < r < |r1| :: nTokens <= r1[r] < nTokens + |pgoto|)
      && (forall i | 0 <= i <= last && check[i] >= 0 :: -|r1| < table[i] || table[i] == tableNinf)
    }

    predicate IsRule(r: nat) { 0 < r < |r1| }

    /** True when the state has only a default reduction, whatever the token. */
    predicate IsDefaulted(s: nat)
      requires s < NStates()
    {
      pact[s] == pactNinf
    }

    /** The action that the tables prescribe for a state and a token. */
    function Action(s: nat, token: nat): Action
      requires Sized() && s < NStates()
    {
      var i := pact[s] + token;
      if IsDefaulted(s) || i < 0 || last < i || check[i] != token then
        Default(s)
      else if table[i] == tableNinf then Fail
      else if table[i] > 0 then ShiftTo(table[i])
      else ReduceBy(-table[i])
    }

    function Default(s: nat): Action
      requires Sized() && s < NStates()
    {
      if defact[s] == 0 then Fail else ReduceBy(defact[s])
    }

    /** The state entered from `s` on the nonterminal `lhs`. */
    function Goto(s: nat, lhs: nat): int
      requires Sized() && nTokens <= lhs < nTokens + |pgoto|
    {
      var i := pgoto[lhs - nTokens] + s;
      if 0 <= i <= last && check[i] == s then table[i] else defgoto[lhs - nTokens]
    }
  }

  datatype Action = ShiftTo(state: nat) | ReduceBy(rule: nat) | Fail

  /** A rule with a dot before its symbol number `dot`. */
  datatype Item = Item(rule: nat, dot: nat)

  /** What the generator knows and the emitted tables omit: the right-hand sides and, for each
      state, LR(0) items that hold there. */
  datatype Certificate = Certificate(g: Rules, items: seq<set<Item>>)

  predicate HasItem(c: Certificate, s: nat, it: Item) {
    s < |c.items| && it in c.items[s]
  }

  predicate ItemInRange(c: Certificate, it: Item) {
    0 < it.rule < |c.g| && it.dot <= |c.g[it.rule].rhs|
  }

  /** `x` labels an edge of the automaton from `p` to `s`: it is the accessing symbol of `s`,
      and every item of `s` whose dot has moved can be moved back over `x` into `p`. */
  predicate Edge(t: Tables, c: Certificate, p: nat, x: nat, s: int)
    requires |c.items| == |t.stos|
  {
    && 0 < s < |t.stos| && p < |t.stos|
    && t.stos[s] == x
    && forall it | it in c.items[s] && it.dot > 0 ::
         && ItemInRange(c, it)
         && c.g[it.rule].rhs[it.dot - 1] == x
         && Item(it.rule, it.dot - 1) in c.items[p]
  }

  predicate ActionSound(t: Tables, c: Certificate, s: nat, token: nat, a: Action)
    requires t.Sized() && |c.items| == |t.stos| && s < t.NStates() && |c.g| == |t.r1|
  {
    match a
    case ShiftTo(s') => Edge(t, c, s, token, s')
    case ReduceBy(r) => ReductionSound(t, c, s, r)
    case Fail => true
  }

  predicate ReductionSound(t: Tables, c: Certificate, s: nat, r: nat)
    requires t.Sized() && |c.items| == |t.stos| && s < t.NStates() && |c.g| == |t.r1|
  {
    t.IsRule(r) && r != ACCEPT && Item(r, |c.g[r].rhs|) in c.items[s]
  }

  /** The certificate describes the same rules as `yyr1` and `yyr2`. */
  predicate RulesMatch(t: Tables, c: Certificate) {
    && t.Sized()
    && |c.items| == t.NStates()
    && |c.g| == |t.r1|
    && forall r | 0 < r < |c.g| :: c.g[r].lhs == t.r1[r] && |c.g[r].rhs| == t.r2[r]
  }

  predicate ItemSound(t: Tables, c: Certificate, s: nat, it: Item)
    requires RulesMatch(t, c) && s < t.NStates()
  {
    && ItemInRange(c, it)
    && (it.dot == 0 && it.rule != ACCEPT ==> Edge(t, c, s, c.g[it.rule].lhs, t.Goto(s, c.g[it.rule].lhs)))
    && (it.dot == 0 && it.rule == ACCEPT ==> s == 0)
    && (s == 0 ==> it.dot == 0)
  }

  /** The per-state validity check of the tables. */
  ghost predicate Checked(t: Tables, c: Certificate) {
    && RulesMatch(t, c)
    && (forall s: nat, token: nat | s < t.NStates() && s != t.final && token < t.nTokens ::
          ActionSound(t, c, s, token, t.Action(s, token)))
    && (forall s: nat, it: Item | s < t.NStates() && it in c.items[s] :: ItemSound(t, c, s, it))
    && 0 < t.final < t.NStates()
    && |c.g[ACCEPT].rhs| == 2 && c.g[ACCEPT].rhs[1] == EOF
    && Item(ACCEPT, 2) in c.items[t.final]
  }

  predicate ShiftsEnd(t: Tables, s: nat)
    requires t.Sized()
  {
    s < t.NStates() && s != t.final && t.Action(s, EOF).ShiftTo?
  }

  /** A check on the tables: one state at most shifts the end marker, and it goes to the final state. */
  ghost predicate EndsOnce(t: Tables)
    requires t.Sized()
  {
    forall s: nat, s': nat | ShiftsEnd(t, s) && ShiftsEnd(t, s') :: s == s' && t.Action(s, EOF) == ShiftTo(t.final)
  }

  lemma CheckedMatches(t: Tables, c: Certificate)
    requires Checked(t, c)
    ensures RulesMatch(t, c)
  {
  }

  lemma CheckedAction(t: Tables, c: Certificate, s: nat, token: nat)
    requires Checked(t, c) && s < t.NStates() && s != t.final && token < t.nTokens
    ensures ActionSound(t, c, s, token, t.Action(s, token))
  {
  }

  lemma CheckedItem(t: Tables, c: Certificate, s: nat, it: Item)
    requires Checked(t, c) && s < t.NStates() && it in c.items[s]
    ensures ItemSound(t, c, s, it)
  {
  }

  /** A state stack, bottom first, all of whose steps are edges of the automaton. */
  ghost predicate IsPath(t: Tables, c: Certificate, ss: seq<nat>)
    requires |c.items| == |t.stos|
  {
    && |ss| > 0 && ss[0] == 0
    && 0 < |t.stos|
    && forall i | 0 < i < |ss| :: EdgeInto(t, c, ss, i)
  }

  ghost predicate EdgeInto(t: Tables, c: Certificate, ss: seq<nat>, i: int)
    requires |c.items| == |t.stos| && 0 < i < |ss|
  {
    Edge(t, c, ss[i - 1], Symbol(t, ss[i]), ss[i])
  }

  function Symbol(t: Tables, s: nat): nat {
    if s < |t.stos| then t.stos[s] else 0
  }

  lemma EdgeSymbol(t: Tables, c: Certificate, p: nat, x: nat, s: int)
    requires |c.items| == |t.stos| && Edge(t, c, p, x, s)
    ensures s > 0 && Symbol(t, s) == x
  {
  }

  /** The accessing symbols of all states above the bottom one. */
  function Symbols(t: Tables, ss: seq<nat>): (syms: seq<nat>)
    requires |ss| > 0
    ensures |syms| == |ss| - 1
  {
    seq(|ss| - 1, i requires 0 <= i < |ss| - 1 => Symbol(t, ss[i + 1]))
  }

  lemma PathPrefix(t: Tables, c: Certificate, ss: seq<nat>, n: nat)
    requires |c.items| == |t.stos| && IsPath(t, c, ss) && 0 < n <= |ss|
    ensures IsPath(t, c, ss[..n])
  {
    forall i | 0 < i < n
      ensures EdgeInto(t, c, ss[..n], i)
    {
      assert EdgeInto(t, c, ss, i);
    }
  }

  lemma PathBottom(t: Tables, c: Certificate, ss: seq<nat>)
    requires |c.items| == |t.stos| && IsPath(t, c, ss)
    ensures |ss| > 0 && ss[0] == 0
  {
  }

  lemma PathEdge(t: Tables, c: Certificate, ss: seq<nat>, i: int)
    requires |c.items| == |t.stos| && IsPath(t, c, ss) && 0 < i < |ss|
    ensures Edge(t, c, ss[i - 1], Symbol(t, ss[i]), ss[i])
  {
    assert EdgeInto(t, c, ss, i);
  }

  lemma PathInRange(t: Tables, c: Certificate, ss: seq<nat>, i: nat)
    requires |c.items| == |t.stos| && IsPath(t, c, ss) && i < |ss|
    ensures ss[i] < |t.stos|
    ensures ss[i] == 0 ==> i == 0
  {
    if i > 0 { assert EdgeInto(t, c, ss, i); }
  }

  lemma StatesInRange(t: Tables, c: Certificate, ss: seq<nat>)
    requires |c.items| == |t.stos| && IsPath(t, c, ss)
    ensures forall i | 0 <= i < |ss| :: ss[i] < |t.stos|
  {
    forall i | 0 <= i < |ss|
      ensures ss[i] < |t.stos|
    {
      PathInRange(t, c, ss, i);
    }
  }

  lemma PathExtend(t: Tables, c: Certificate, ss: seq<nat>, x: nat, s: nat)
    requires |c.items| == |t.stos| && IsPath(t, c, ss)
    requires Edge(t, c, ss[|ss| - 1], x, s)
    ensures IsPath(t, c, ss + [s])
    ensures Symbols(t, ss + [s]) == Symbols(t, ss) + [x]
  {
    forall i | 0 < i <= |ss|
      ensures EdgeInto(t, c, ss + [s], i)
    {
      if i < |ss| { assert EdgeInto(t, c, ss, i); }
    }
  }

  /** An item with its dot moved `d` symbols says what the top `d` stack symbols are, and that
      the rule was predicted in the state below them. */
  lemma {:induction false} Backtrack(t: Tables, c: Certificate, ss: seq<nat>, r: nat, d: nat)
    requires Checked(t, c) && IsPath(t, c, ss)
    requires HasItem(c, ss[|ss| - 1], Item(r, d))
    ensures 0 < r < |c.g| && d <= |c.g[r].rhs|
    ensures d < |ss|
    ensures HasItem(c, ss[|ss| - 1 - d], Item(r, 0))
    ensures forall j | 0 <= j < d :: Symbol(t, ss[|ss| - d + j]) == c.g[r].rhs[j]
    decreases d
  {
    hide Checked, IsPath;
    CheckedMatches(t, c);
    PathBottom(t, c, ss);
    var top := ss[|ss| - 1];
    PathInRange(t, c, ss, |ss| - 1);
    CheckedItem(t, c, top, Item(r, d));
    if d > 0 {
      PathEdge(t, c, ss, |ss| - 1);
      assert Item(r, d).dot > 0;
      assert Item(r, d - 1) in c.items[ss[|ss| - 2]];
      var below := ss[..|ss| - 1];
      PathPrefix(t, c, ss, |ss| - 1);
      Backtrack(t, c, below, r, d - 1);
      forall j | 0 <= j < d
        ensures Symbol(t, ss[|ss| - d + j]) == c.g[r].rhs[j]
      {
        if j < d - 1 { assert ss[|ss| - d + j] == below[|below| - (d - 1) + j]; }
      }
    }
  }

  lemma BacktrackSymbols(t: Tables, c: Certificate, ss: seq<nat>, r: nat)
    requires Checked(t, c) && IsPath(t, c, ss)
    requires r < |c.g| && HasItem(c, ss[|ss| - 1], Item(r, |c.g[r].rhs|))
    ensures |c.g[r].rhs| < |ss|
    ensures HasItem(c, ss[|ss| - 1 - |c.g[r].rhs|], Item(r, 0))
    ensures Symbols(t, ss)[|ss| - 1 - |c.g[r].rhs|..] == c.g[r].rhs
  {
    Backtrack(t, c, ss, r, |c.g[r].rhs|);
  }

  /** A reduction that the tables call for finds the whole right-hand side on the stack, and the
      goto from the state below it is an edge labelled with the left-hand side. */
  lemma ReduceOnPath(t: Tables, c: Certificate, ss: seq<nat>, r: nat)
    requires Checked(t, c) && IsPath(t, c, ss)
    requires ss[|ss| - 1] < t.NStates() && ReductionSound(t, c, ss[|ss| - 1], r)
    ensures t.r2[r] < |ss|
    ensures Symbols(t, ss)[|ss| - 1 - t.r2[r]..] == c.g[r].rhs
    ensures IsPath(t, c, ss[..|ss| - t.r2[r]])
    ensures ss[|ss| - 1 - t.r2[r]] < t.NStates()
    ensures Edge(t, c, ss[|ss| - 1 - t.r2[r]], t.r1[r], t.Goto(ss[|ss| - 1 - t.r2[r]], t.r1[r]))
  {
    var d := |c.g[r].rhs|;
    BacktrackSymbols(t, c, ss, r);
    PathPrefix(t, c, ss, |ss| - d);
    PathInRange(t, c, ss, |ss| - 1 - d);
    CheckedItem(t, c, ss[|ss| - 1 - d], Item(r, 0));
  }

  /** In the final state the stack holds exactly the start symbol and the end marker. */
  lemma FinalStack(t: Tables, c: Certificate, ss: seq<nat>)
    requires Checked(t, c) && IsPath(t, c, ss)
    requires ss[|ss| - 1] == t.final
    ensures |ss| == 3
    ensures Symbols(t, ss) == c.g[ACCEPT].rhs && c.g[ACCEPT].rhs[1] == EOF
  {
    BacktrackSymbols(t, c, ss, ACCEPT);
    PathInRange(t, c, ss, |ss| - 3);
    CheckedItem(t, c, ss[|ss| - 3], Item(ACCEPT, 0));
    assert ss[|ss| - 3] == 0;
    PathInRange(t, c, ss, |ss| - 3);
  }
}
