/** The LALR(1) push-down machine of the yacc.c skeleton as a transition system on values.
    One transition runs from the label `yybackup` to the end of the next `yysetstate`. */
module ParserMachine {
  import opened Grammar
  import opened LrTables

  /** `yychar`: empty, or a token already read. */
  datatype Look = NoLook | Tok(token: nat)

  datatype Status = Running | Accepted | Aborted | Exhausted

  datatype Config = Config(
    ss: seq<nat>,        // states, bottom first
    vs: seq<Tree>,       // values; the one beside the bottom state is never used
    capacity: nat,       // yystacksize
    text: seq<nat>,      // what the lexer delivers, followed by EOF for ever
    pos: nat,            // how many tokens have been read
    look: Look,
    errStatus: nat,      // yyerrstatus
    nerrs: nat,          // yynerrs
    status: Status)
  {
    function Top(): nat
      requires |ss| > 0
    {
      ss[|ss| - 1]
    }

    /** Semantic values above the unused bottom slot. */
    function Values(): seq<Tree> {
      if |vs| == 0 then [] else vs[1..]
    }

    function Lookahead(): seq<nat> {
      match look
      case NoLook => []
      case Tok(x) => [x]
    }
  }

  /** What holds between transitions: the states are a path of the automaton, the value stack is
      level with them and holds derivations of their symbols, and while no error has been
      reported the values derive exactly the tokens read so far, the lookahead excepted. */
  ghost predicate Sound(t: Tables, c: Certificate, k: Config) {
    && Checked(t, c)
    && IsPath(t, c, k.ss)
    && |k.vs| == |k.ss|
    && Derivations(c.g, k.Values())
    && Roots(c.g, k.Values(), Symbols(t, k.ss))
    && (forall x | x in k.text :: x < t.nTokens)
    && (k.look.Tok? ==> k.look.token < t.nTokens)
    && k.errStatus <= 3
    && (k.nerrs == 0 ==> k.errStatus == 0 && Yields(k.Values()) + k.Lookahead() == Delivered(k.text, k.pos))
    && (k.status.Running? ==> t.final !in k.ss && |k.ss| < k.capacity)
    && (k.status.Accepted? ==> k.Top() == t.final && k.look.NoLook?)
  }

  function ReadAhead(k: Config): Config {
    if k.look.NoLook? then k.(look := Tok(TokenAt(k.text, k.pos)), pos := k.pos + 1) else k
  }

  /** The configuration after reading a lookahead, if the state asks for one, and the action. */
  function Decide(t: Tables, k: Config): (Config, Action)
    requires t.Sized() && |k.ss| > 0 && k.Top() < t.NStates()
  {
    if t.IsDefaulted(k.Top()) then (k, t.Default(k.Top()))
    else var k1 := ReadAhead(k); (k1, t.Action(k.Top(), k1.look.token))
  }

  /** Label `yysetstate`, the state being stored already: grow full stacks, then accept. */
  function Settle(t: Tables, maxDepth: nat, k: Config, allocates: bool): (k': Config)
    requires |k.ss| > 0
    ensures k' == k.(capacity := k'.capacity, status := k'.status)
    ensures k'.status == k.status || k'.status.Exhausted? || (k'.status.Accepted? && k.Top() == t.final)
    ensures k'.capacity == k.capacity || k'.capacity == maxDepth || k'.capacity == 2 * k.capacity
    ensures k.status.Running? && k'.status.Exhausted? ==> k.capacity <= |k.ss| && (maxDepth <= |k.ss| || !allocates)
    ensures k.status.Running? && k.capacity > 0 && |k.ss| <= k.capacity ==>
      (k'.status.Running? <==> |k.ss| < k'.capacity && k.Top() != t.final)
  {
    var full := k.capacity <= |k.ss|;
    var doubled := if maxDepth < 2 * k.capacity then maxDepth else 2 * k.capacity;
    if full && (maxDepth <= k.capacity || !allocates) then
      k.(status := Exhausted)
    else
      var k1 := if full then k.(capacity := doubled) else k;
      if k1.Top() == t.final then k1.(status := Accepted)
      else k1
  }

  /** Label `yynewstate`. */
  function Push(t: Tables, maxDepth: nat, k: Config, s: nat, v: Tree, allocates: bool): (k': Config)
    ensures k' == k.(ss := k.ss + [s], vs := k.vs + [v], capacity := k'.capacity, status := k'.status)
    ensures k'.status == k.status || k'.status.Exhausted? || (k'.status.Accepted? && s == t.final)
  {
    Settle(t, maxDepth, k.(ss := k.ss + [s], vs := k.vs + [v]), allocates)
  }

  /** The configuration after popping `n` states with their values. */
  function Pop(k: Config, n: nat): Config
    requires n <= |k.ss| == |k.vs|
  {
    k.(ss := k.ss[..|k.ss| - n], vs := k.vs[..|k.vs| - n])
  }

  function Shift(t: Tables, maxDepth: nat, k: Config, s: nat, allocates: bool): Config
    requires k.look.Tok?
  {
    var k1 := k.(errStatus := if k.errStatus > 0 then k.errStatus - 1 else 0, look := NoLook);
    Push(t, maxDepth, k1, s, Leaf(k.look.token), allocates)
  }

  function Reduce(t: Tables, maxDepth: nat, k: Config, r: nat, allocates: bool): Config
    requires t.Sized() && t.IsRule(r) && t.r2[r] < |k.ss| == |k.vs|
  {
    var below := Pop(k, t.r2[r]);
    var target := t.Goto(below.Top(), t.r1[r]);
    Push(t, maxDepth, below, if target < 0 then 0 else target,
         Node(r, k.vs[|k.vs| - t.r2[r]..]), allocates)
  }

  predicate ShiftsError(t: Tables, s: nat)
    requires t.Sized()
  {
    s < t.NStates() && t.Action(s, t.errTok).ShiftTo?
  }

  /** The height of the highest of the lowest `n` states that shifts `error`, or 0. */
  function ErrorHeight(t: Tables, ss: seq<nat>, n: nat): (h: nat)
    requires t.Sized() && n <= |ss|
    ensures h <= n
    ensures h > 0 ==> ShiftsError(t, ss[h - 1])
    ensures forall i | h <= i < n :: !ShiftsError(t, ss[i])
  {
    if n == 0 || ShiftsError(t, ss[n - 1]) then n else ErrorHeight(t, ss, n - 1)
  }

  /** Label `yyerrlab`. */
  function Recover(t: Tables, maxDepth: nat, k: Config, allocates: bool): Config
    requires t.Sized() && |k.ss| == |k.vs| > 0
  {
    var k1 := if k.errStatus == 0 then k.(nerrs := k.nerrs + 1) else k;
    if k.errStatus == 3 && k.look == Tok(EOF) then k1.(status := Aborted)
    else RecoverShift(t, maxDepth, if k.errStatus == 3 then k1.(look := NoLook) else k1, allocates)
  }

  /** Label `yyerrlab1`: pop to a state that shifts `error`, and shift it. */
  function RecoverShift(t: Tables, maxDepth: nat, k: Config, allocates: bool): Config
    requires t.Sized() && |k.ss| == |k.vs| > 0
  {
    var k1 := k.(errStatus := 3);
    var h := ErrorHeight(t, k.ss, |k.ss|);
    if h == 0 then Pop(k1, |k.ss| - 1).(status := Aborted)
    else
      Push(t, maxDepth, Pop(k1, |k.ss| - h), t.Action(k.ss[h - 1], t.errTok).state, Leaf(t.errTok), allocates)
  }

  lemma RecoverShiftAt(t: Tables, maxDepth: nat, k: Config, allocates: bool)
    requires t.Sized() && |k.ss| == |k.vs| > 0
    ensures var h := ErrorHeight(t, k.ss, |k.ss|); var k1 := k.(errStatus := 3);
      RecoverShift(t, maxDepth, k, allocates) ==
        if h == 0 then Pop(k1, |k.ss| - 1).(status := Aborted)
        else Push(t, maxDepth, Pop(k1, |k.ss| - h), t.Action(k.ss[h - 1], t.errTok).state, Leaf(t.errTok), allocates)
  {
    hide Push, ErrorHeight;
  }

  ghost predicate CanStep(t: Tables, c: Certificate, k: Config) {
    Sound(t, c, k) && k.status.Running?
  }

  lemma RoomToPush(t: Tables, c: Certificate, k: Config)
    requires CanStep(t, c, k)
    ensures t.Sized() && |k.ss| < k.capacity
  {
  }

  lemma ReadSound(t: Tables, c: Certificate, k: Config)
    requires CanStep(t, c, k)
    ensures CanStep(t, c, ReadAhead(k)) && ReadAhead(k).look.Tok? && ReadAhead(k).look.token < t.nTokens
  {
    hide Checked, IsPath;
    CheckedMatches(t, c);
    if k.look.NoLook? {
      assert k.pos < |k.text| ==> k.text[k.pos] in k.text;
      assert Delivered(k.text, k.pos + 1) == Delivered(k.text, k.pos) + [TokenAt(k.text, k.pos)];
    }
  }

  lemma SoundParts(t: Tables, c: Certificate, k: Config)
    requires Sound(t, c, k)
    ensures Checked(t, c) && RulesMatch(t, c) && IsPath(t, c, k.ss) && |k.ss| == |k.vs| > 0
    ensures k.status.Running? ==> t.final !in k.ss
    ensures k.look.Tok? ==> k.look.token < t.nTokens
    ensures EOF < t.nTokens
  {
  }

  /** Reductions prescribed by the tables never pop the bottom state. */
  lemma Decided(t: Tables, c: Certificate, k: Config)
    requires CanStep(t, c, k)
    ensures k.Top() < t.NStates()
    ensures var (k1, a) := Decide(t, k);
      && CanStep(t, c, k1) && k1.ss == k.ss && k1.vs == k.vs
      && (t.IsDefaulted(k.Top()) ==> k1 == k) && (!t.IsDefaulted(k.Top()) ==> k1.look.Tok?)
      && ActionSound(t, c, k.Top(), if k1.look.Tok? then k1.look.token else EOF, a)
      && (a.ShiftTo? ==> k1.look.Tok?)
      && (a.ReduceBy? ==> t.IsRule(a.rule) && t.r2[a.rule] < |k.ss|)
  {
    hide Checked, IsPath, Sound;
    SoundParts(t, c, k);
    PathInRange(t, c, k.ss, |k.ss| - 1);
    assert k.Top() in k.ss;
    ReadSound(t, c, k);
    var (k1, a) := Decide(t, k);
    SoundParts(t, c, k1);
    var x := if k1.look.Tok? then k1.look.token else EOF;
    CheckedAction(t, c, k.Top(), x);
    assert a == t.Action(k.Top(), x);
    if a.ReduceBy? { ReduceOnPath(t, c, k.ss, a.rule); }
  }

  ghost function Advance(t: Tables, c: Certificate, maxDepth: nat, k: Config, allocates: bool): Config
    requires CanStep(t, c, k)
  {
    Decided(t, c, k);
    var (k1, a) := Decide(t, k);
    match a
    case ShiftTo(s) => Shift(t, maxDepth, k1, s, allocates)
    case ReduceBy(r) => Reduce(t, maxDepth, k1, r, allocates)
    case Fail => Recover(t, maxDepth, k1, allocates)
  }

  /** Pushing over an edge, with a derivation of its symbol that accounts for the tokens read. */
  lemma PushSound(t: Tables, c: Certificate, maxDepth: nat, k: Config, x: nat, s: nat, v: Tree, allocates: bool)
    requires Checked(t, c) && IsPath(t, c, k.ss) && |k.vs| == |k.ss|
    requires Derivations(c.g, k.Values()) && Roots(c.g, k.Values(), Symbols(t, k.ss))
    requires forall x | x in k.text :: x < t.nTokens
    requires k.look.Tok? ==> k.look.token < t.nTokens
    requires Edge(t, c, k.Top(), x, s) && Derivation(c.g, v) && Root(c.g, v) == x
    requires k.nerrs == 0 ==>
      k.errStatus == 0 && Yields(k.Values()) + Yield(v) + k.Lookahead() == Delivered(k.text, k.pos)
    requires k.status.Running? && t.final !in k.ss && k.errStatus <= 3 && |k.ss| < k.capacity
    requires s == t.final ==> k.look.NoLook?
    ensures Sound(t, c, Push(t, maxDepth, k, s, v, allocates))
  {
    hide Checked, IsPath;
    CheckedMatches(t, c);
    PathExtend(t, c, k.ss, x, s);
    var values := k.Values() + [v];
    assert (k.vs + [v])[1..] == values;
    assert Yields(values) == Yields(k.Values()) + Yield(v) by {
      assert values[..|values| - 1] == k.Values();
    }
  }

  /** Gotos never enter the final state: it is entered on the end marker. */
  lemma FinalOnEof(t: Tables, c: Certificate, p: nat, x: nat)
    requires Checked(t, c) && Edge(t, c, p, x, t.final)
    ensures x == EOF
  {
    assert Item(ACCEPT, 2).dot == 2;
  }

  lemma GotoNotFinal(t: Tables, c: Certificate, p: nat, r: nat)
    requires RulesMatch(t, c) && Checked(t, c) && t.IsRule(r) && p < t.NStates()
    requires Edge(t, c, p, t.r1[r], t.Goto(p, t.r1[r]))
    ensures t.Goto(p, t.r1[r]) != t.final
  {
    var target := t.Goto(p, t.r1[r]);
    if target == t.final {
      FinalOnEof(t, c, p, t.r1[r]);
      assert false;
    }
  }

  lemma {:induction false} ShiftSound(t: Tables, c: Certificate, maxDepth: nat, k: Config, s: nat, allocates: bool)
    requires CanStep(t, c, k) && k.look.Tok? && Edge(t, c, k.Top(), k.look.token, s)
    ensures Sound(t, c, Shift(t, maxDepth, k, s, allocates))
  {
    var k1 := k.(errStatus := if k.errStatus > 0 then k.errStatus - 1 else 0, look := NoLook);
    assert k1.Values() == k.Values() && k1.Lookahead() == [];
    PushSound(t, c, maxDepth, k1, k.look.token, s, Leaf(k.look.token), allocates);
  }

  lemma PopSound(t: Tables, c: Certificate, k: Config, n: nat)
    requires |c.items| == |t.stos| && IsPath(t, c, k.ss) && |k.vs| == |k.ss| && n < |k.ss|
    requires Derivations(c.g, k.Values()) && Roots(c.g, k.Values(), Symbols(t, k.ss))
    ensures IsPath(t, c, Pop(k, n).ss)
    ensures Derivations(c.g, Pop(k, n).Values())
    ensures Roots(c.g, Pop(k, n).Values(), Symbols(t, Pop(k, n).ss))
    ensures Pop(k, n).Values() == k.Values()[..|k.ss| - 1 - n]
  {
    PathPrefix(t, c, k.ss, |k.ss| - n);
    assert Pop(k, n).Values() == k.Values()[..|k.ss| - 1 - n];
    assert Symbols(t, Pop(k, n).ss) == Symbols(t, k.ss)[..|k.ss| - 1 - n];
  }

  lemma TailRoots(g: Rules, values: seq<Tree>, symbols: seq<nat>, m: nat)
    requires Derivations(g, values) && Roots(g, values, symbols) && m <= |values|
    ensures |symbols| == |values| && Derivations(g, values[m..]) && Roots(g, values[m..], symbols[m..])
  {
    hide Derivation, Root;
    forall i | 0 <= i < |values| - m
      ensures Root(g, values[m..][i]) == symbols[m..][i] && Derivation(g, values[m..][i])
    {
      assert values[m..][i] == values[m + i];
    }
  }

  /** The values of a right-hand side become a derivation of its left-hand side. */
  lemma ReducedTree(t: Tables, c: Certificate, k: Config, r: nat)
    requires RulesMatch(t, c) && |k.vs| == |k.ss| && t.IsRule(r) && t.r2[r] < |k.ss|
    requires Derivations(c.g, k.Values()) && Roots(c.g, k.Values(), Symbols(t, k.ss))
    requires Symbols(t, k.ss)[|k.ss| - 1 - t.r2[r]..] == c.g[r].rhs
    ensures var v := Node(r, k.vs[|k.vs| - t.r2[r]..]);
      && Derivation(c.g, v) && Root(c.g, v) == t.r1[r]
      && Yields(k.Values()) == Yields(Pop(k, t.r2[r]).Values()) + Yield(v)
  {
    hide Roots, Derivations;
    var values := k.Values();
    var m := |values| - t.r2[r];
    var kids := k.vs[|k.vs| - t.r2[r]..];
    assert kids == values[m..];
    TailRoots(c.g, values, Symbols(t, k.ss), m);
    YieldsSplit(values, m);
    assert Pop(k, t.r2[r]).Values() == values[..m];
  }

  lemma ReduceSound(t: Tables, c: Certificate, maxDepth: nat, k: Config, r: nat, allocates: bool)
    requires CanStep(t, c, k)
    requires k.Top() < t.NStates() && ReductionSound(t, c, k.Top(), r)
    ensures t.r2[r] < |k.ss|
    ensures Sound(t, c, Reduce(t, maxDepth, k, r, allocates))
  {
    hide Checked, IsPath, Push, Derivations, Roots, Edge;
    SoundParts(t, c, k);
    ReduceOnPath(t, c, k.ss, r);
    PopSound(t, c, k, t.r2[r]);
    ReducedTree(t, c, k, r);
    var below := Pop(k, t.r2[r]);
    var target := t.Goto(below.Top(), t.r1[r]);
    GotoNotFinal(t, c, below.Top(), r);
    EdgeTarget(t, c, below.Top(), t.r1[r], target);
    assert below.Lookahead() == k.Lookahead();
    PushSound(t, c, maxDepth, below, t.r1[r], target, Node(r, k.vs[|k.vs| - t.r2[r]..]), allocates);
  }

  lemma EdgeTarget(t: Tables, c: Certificate, p: nat, x: nat, target: int)
    requires |c.items| == |t.stos| && Edge(t, c, p, x, target)
    ensures target >= 0
  {
  }

  lemma RecoverShiftSound(t: Tables, c: Certificate, maxDepth: nat, k: Config, allocates: bool)
    requires CanStep(t, c, k.(errStatus := 0)) && k.nerrs > 0
    ensures Sound(t, c, RecoverShift(t, maxDepth, k, allocates))
  {
    hide Checked, IsPath, Push, Derivations, Roots, ErrorHeight, Sound, RecoverShift;
    SoundParts(t, c, k.(errStatus := 0));
    CheckedMatches(t, c);
    RecoverShiftAt(t, maxDepth, k, allocates);
    var k1 := k.(errStatus := 3);
    var h := ErrorHeight(t, k.ss, |k.ss|);
    if h == 0 {
      PoppedSound(t, c, k1, |k.ss| - 1);
    } else {
      PoppedSound(t, c, k1, |k.ss| - h);
      var s := k.ss[h - 1];
      PathInRange(t, c, k.ss, h - 1);
      assert s in k.ss;
      CheckedAction(t, c, s, t.errTok);
      var target := t.Action(s, t.errTok).state;
      if target == t.final { FinalOnEof(t, c, s, t.errTok); }
      ErrorPushed(t, c, maxDepth, Pop(k1, |k.ss| - h), target, allocates);
    }
  }

  /** Popping leaves a configuration that is sound once an error has been reported. */
  lemma PoppedSound(t: Tables, c: Certificate, k: Config, n: nat)
    requires CanStep(t, c, k.(errStatus := 0)) && k.nerrs > 0 && k.errStatus == 3 && n < |k.ss|
    ensures |k.vs| == |k.ss| && CanStep(t, c, Pop(k, n)) && Sound(t, c, Pop(k, n).(status := Aborted))
  {
    hide Checked, IsPath, Derivations, Roots;
    CheckedMatches(t, c);
    PopSound(t, c, k, n);
  }

  lemma ErrorPushed(t: Tables, c: Certificate, maxDepth: nat, k: Config, target: nat, allocates: bool)
    requires CanStep(t, c, k) && k.nerrs > 0 && Edge(t, c, k.Top(), t.errTok, target) && target != t.final
    ensures Sound(t, c, Push(t, maxDepth, k, target, Leaf(t.errTok), allocates))
  {
    hide Checked, IsPath, Derivations, Roots, Edge;
    PushSound(t, c, maxDepth, k, t.errTok, target, Leaf(t.errTok), allocates);
  }

  lemma RecoverSound(t: Tables, c: Certificate, maxDepth: nat, k: Config, allocates: bool)
    requires CanStep(t, c, k)
    ensures Sound(t, c, Recover(t, maxDepth, k, allocates))
  {
    hide Checked, IsPath, RecoverShift;
    var k1 := if k.errStatus == 0 then k.(nerrs := k.nerrs + 1) else k;
    if !(k.errStatus == 3 && k.look == Tok(EOF)) {
      RecoverShiftSound(t, c, maxDepth, if k.errStatus == 3 then k1.(look := NoLook) else k1, allocates);
    }
  }

  lemma AdvanceSound(t: Tables, c: Certificate, maxDepth: nat, k: Config, allocates: bool)
    requires CanStep(t, c, k)
    ensures Sound(t, c, Advance(t, c, maxDepth, k, allocates))
  {
    Decided(t, c, k);
    var (k1, a) := Decide(t, k);
    match a
    case ShiftTo(s) => ShiftSound(t, c, maxDepth, k1, s, allocates);
    case ReduceBy(r) => ReduceSound(t, c, maxDepth, k1, r, allocates);
    case Fail => RecoverSound(t, c, maxDepth, k1, allocates);
  }

  lemma AdvanceText(t: Tables, c: Certificate, maxDepth: nat, k: Config, allocates: bool)
    requires CanStep(t, c, k)
    ensures Advance(t, c, maxDepth, k, allocates).text == k.text
  {
    hide Checked, IsPath, Settle, Push;
    Decided(t, c, k);
  }

  /** The configuration in which `yyparse` first reaches `yybackup`. */
  function Initial(t: Tables, maxDepth: nat, initDepth: nat, text: seq<nat>, allocates: bool): Config {
    Settle(t, maxDepth, Config([0], [Leaf(EOF)], initDepth, text, 0, NoLook, 0, 0, Running), allocates)
  }

  lemma InitialSound(t: Tables, c: Certificate, maxDepth: nat, initDepth: nat, text: seq<nat>, allocates: bool)
    requires Checked(t, c) && initDepth > 0 && forall x | x in text :: x < t.nTokens
    ensures Sound(t, c, Initial(t, maxDepth, initDepth, text, allocates))
  {
  }

  /** A run of at most `|allocations|` transitions; element `i` says whether the allocator would
      serve transition `i`. */
  ghost function Run(t: Tables, c: Certificate, maxDepth: nat, k: Config, allocations: seq<bool>): Config
    requires Sound(t, c, k)
    decreases |allocations|
  {
    if allocations == [] || !k.status.Running? then k
    else
      AdvanceSound(t, c, maxDepth, k, allocations[0]);
      Run(t, c, maxDepth, Advance(t, c, maxDepth, k, allocations[0]), allocations[1..])
  }

  lemma {:induction false} RunSound(t: Tables, c: Certificate, maxDepth: nat, k: Config, allocations: seq<bool>)
    requires Sound(t, c, k)
    ensures Sound(t, c, Run(t, c, maxDepth, k, allocations))
    ensures Run(t, c, maxDepth, k, allocations).text == k.text
    decreases |allocations|
  {
    hide Sound, Advance;
    if allocations != [] && k.status.Running? {
      assert CanStep(t, c, k);
      AdvanceSound(t, c, maxDepth, k, allocations[0]);
      AdvanceText(t, c, maxDepth, k, allocations[0]);
      RunSound(t, c, maxDepth, Advance(t, c, maxDepth, k, allocations[0]), allocations[1..]);
    }
  }

  /** Memory is exhausted only by a stack of the maximal depth, or by a request that is refused. */
  lemma {:induction false} RunExhausted(t: Tables, c: Certificate, maxDepth: nat, k: Config, allocations: seq<bool>)
    requires Sound(t, c, k) && k.status.Running? && Run(t, c, maxDepth, k, allocations).status.Exhausted?
    ensures maxDepth <= |Run(t, c, maxDepth, k, allocations).ss| || false in allocations
    decreases |allocations|
  {
    hide Sound, Advance;
    if allocations != [] {
      assert CanStep(t, c, k);
      AdvanceSound(t, c, maxDepth, k, allocations[0]);
      StepExhausted(t, c, maxDepth, k, allocations[0]);
      var k' := Advance(t, c, maxDepth, k, allocations[0]);
      if k'.status.Running? { RunExhausted(t, c, maxDepth, k', allocations[1..]); }
    }
  }

  lemma StepExhausted(t: Tables, c: Certificate, maxDepth: nat, k: Config, allocates: bool)
    requires CanStep(t, c, k)
    ensures var k' := Advance(t, c, maxDepth, k, allocates);
      k'.status.Exhausted? ==> maxDepth <= |k'.ss| || !allocates
  {
    hide Checked, IsPath, ErrorHeight;
    Decided(t, c, k);
  }

  lemma AcceptedTree(t: Tables, c: Certificate, k: Config)
    requires Sound(t, c, k) && k.status.Accepted? && k.nerrs == 0
    ensures |k.vs| == 3 && k.look.NoLook?
    ensures Derivation(c.g, k.vs[1]) && |c.g| > ACCEPT && |c.g[ACCEPT].rhs| == 2
    ensures Root(c.g, k.vs[1]) == c.g[ACCEPT].rhs[0]
    ensures Yield(k.vs[1]) + [EOF] == Delivered(k.text, k.pos)
  {
    hide Checked, IsPath;
    CheckedMatches(t, c);
    FinalStack(t, c, k.ss);
    var values := k.Values();
    assert values == [k.vs[1], k.vs[2]];
    EofLeaf(t, c, values[1]);
    assert Yields(values) == Yields(values[..1]) + Yield(values[1]);
    assert Yields(values[..1]) == Yields(values[..1][..0]) + Yield(values[0]);
  }

  /** Acceptance without error reports means that the tokens consumed are a sentence: the value
      left for the start symbol is a derivation of them up to the end marker. */
  lemma AcceptedIsSentence(t: Tables, c: Certificate, maxDepth: nat, initDepth: nat, text: seq<nat>,
                           allocations: seq<bool>)
    requires Checked(t, c) && forall x | x in text :: x < t.nTokens
    requires initDepth > 0 && |allocations| > 0
    ensures Sound(t, c, Initial(t, maxDepth, initDepth, text, allocations[0]))
    ensures var k := Run(t, c, maxDepth, Initial(t, maxDepth, initDepth, text, allocations[0]), allocations[1..]);
      k.status.Accepted? && k.nerrs == 0 ==>
        && |k.vs| == 3 && k.look.NoLook?
        && Derivation(c.g, k.vs[1]) && Root(c.g, k.vs[1]) == c.g[ACCEPT].rhs[0]
        && Yield(k.vs[1]) + [EOF] == Delivered(text, k.pos)
  {
    InitialSound(t, c, maxDepth, initDepth, text, allocations[0]);
    hide Sound, Run;
    var k0 := Initial(t, maxDepth, initDepth, text, allocations[0]);
    RunSound(t, c, maxDepth, k0, allocations[1..]);
    var k := Run(t, c, maxDepth, k0, allocations[1..]);
    if k.status.Accepted? && k.nerrs == 0 {
      AcceptedTree(t, c, k);
    }
  }

  /** The only derivation of the end marker is the marker itself. */
  lemma EofLeaf(t: Tables, c: Certificate, v: Tree)
    requires RulesMatch(t, c) && Derivation(c.g, v) && Root(c.g, v) == EOF
    ensures v == Leaf(EOF)
  {
  }
}
