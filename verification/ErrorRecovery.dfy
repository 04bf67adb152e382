/** Error recovery of the yacc.c skeleton over whole runs: how far apart reports are, and why
    recovery cannot go on for ever. */
module ErrorRecovery {
  import opened Grammar
  import opened LrTables
  import opened ParserMachine

  /** What one transition does, as an observer of the input and of `yyerror` sees it. */
  datatype Event =
    | Shifted(token: nat)
    | Reduced
    | Erred(reports: bool, look: Look, discards: bool)   // a visit to `yyerrlab`, and what was in hand

  ghost function Happens(t: Tables, c: Certificate, k: Config): Event
    requires CanStep(t, c, k)
  {
    Decided(t, c, k);
    var (k1, a) := Decide(t, k);
    match a
    case ShiftTo(_) => Shifted(k1.look.token)
    case ReduceBy(_) => Reduced
    case Fail => Erred(k1.errStatus == 0, k1.look, k1.errStatus == 3 && k1.look.Tok? && k1.look != Tok(EOF))
  }

  ghost function Trail(t: Tables, c: Certificate, maxDepth: nat, k: Config, allocations: seq<bool>): (es: seq<Event>)
    requires Sound(t, c, k)
    ensures |es| <= |allocations|
    decreases |allocations|
  {
    if allocations == [] || !k.status.Running? then []
    else
      AdvanceSound(t, c, maxDepth, k, allocations[0]);
      [Happens(t, c, k)] + Trail(t, c, maxDepth, Advance(t, c, maxDepth, k, allocations[0]), allocations[1..])
  }

  function Shifts(es: seq<Event>): nat {
    if es == [] then 0 else (if es[0].Shifted? then 1 else 0) + Shifts(es[1..])
  }

  function Errors(es: seq<Event>): nat {
    if es == [] then 0 else (if es[0].Erred? then 1 else 0) + Errors(es[1..])
  }

  function Discards(es: seq<Event>): nat {
    if es == [] then 0 else (if es[0].Erred? && es[0].discards then 1 else 0) + Discards(es[1..])
  }

  /** How one transition moves `yyerrstatus`. */
  lemma StatusAfter(t: Tables, c: Certificate, maxDepth: nat, k: Config, allocates: bool)
    requires CanStep(t, c, k)
    ensures k.errStatus <= 3
    ensures var k' := Advance(t, c, maxDepth, k, allocates);
      match Happens(t, c, k)
      case Shifted(_) => k'.errStatus == if k.errStatus == 0 then 0 else k.errStatus - 1
      case Reduced => k'.errStatus == k.errStatus
      case Erred(reports, look, discards) =>
        && reports == (k.errStatus == 0)
        && (discards ==> k.errStatus == 3 && look.Tok? && k'.look.NoLook?)
        && (!discards ==> k'.look == look)
        && (k'.status.Running? ==> k'.errStatus == 3)
        && (k.errStatus == 3 && look.Tok? && !discards ==> k'.status.Aborted?)
  {
    hide Checked, IsPath, Sound, ActionSound, Recover;
    StatusBound(t, c, k);
    Decided(t, c, k);
    var (k1, a) := Decide(t, k);
    if a.Fail? { RecoverStatus(t, maxDepth, k1, allocates); }
  }

  lemma RecoverStatus(t: Tables, maxDepth: nat, k: Config, allocates: bool)
    requires t.Sized() && |k.ss| == |k.vs| > 0 && k.status.Running?
    ensures var k' := Recover(t, maxDepth, k, allocates);
      && (k'.status.Running? ==> k'.errStatus == 3)
      && (k.errStatus == 3 && k.look == Tok(EOF) ==> k'.status.Aborted?)
      && (k.errStatus == 3 && k.look != Tok(EOF) ==> k'.look.NoLook?)
      && (k.errStatus != 3 || k.look == Tok(EOF) ==> k'.look == k.look)
  {
    hide ShiftsError;
  }

  lemma StatusBound(t: Tables, c: Certificate, k: Config)
    requires Sound(t, c, k)
    ensures k.errStatus <= 3 && t.Sized() && |k.ss| == |k.vs| > 0
  {
  }

  /** No report before `yyerrstatus` shifts have happened. */
  lemma {:induction false} FirstReport(t: Tables, c: Certificate, maxDepth: nat, k: Config, allocations: seq<bool>,
                                       j: nat)
    requires Sound(t, c, k)
    requires var es := Trail(t, c, maxDepth, k, allocations); j < |es| && es[j].Erred? && es[j].reports
    ensures Shifts(Trail(t, c, maxDepth, k, allocations)[..j]) >= k.errStatus
    decreases j
  {
    hide Sound, Advance, Happens;
    var es := Trail(t, c, maxDepth, k, allocations);
    assert CanStep(t, c, k);
    StatusAfter(t, c, maxDepth, k, allocations[0]);
    if j > 0 {
      AdvanceSound(t, c, maxDepth, k, allocations[0]);
      var k' := Advance(t, c, maxDepth, k, allocations[0]);
      FirstReport(t, c, maxDepth, k', allocations[1..], j - 1);
      assert es[1..] == Trail(t, c, maxDepth, k', allocations[1..]);
      assert es[..j][1..] == es[1..][..j - 1];
    }
  }

  /** Between an error and any later report lie at least three shifted tokens. */
  lemma {:induction false} ReportsApart(t: Tables, c: Certificate, maxDepth: nat, k: Config, allocations: seq<bool>,
                                        i: nat, j: nat)
    requires Sound(t, c, k)
    requires var es := Trail(t, c, maxDepth, k, allocations);
      i < j < |es| && es[i].Erred? && es[j].Erred? && es[j].reports
    ensures Shifts(Trail(t, c, maxDepth, k, allocations)[i + 1..j]) >= 3
    decreases i
  {
    hide Sound, Advance, Happens;
    var es := Trail(t, c, maxDepth, k, allocations);
    assert CanStep(t, c, k);
    AdvanceSound(t, c, maxDepth, k, allocations[0]);
    StatusAfter(t, c, maxDepth, k, allocations[0]);
    var k' := Advance(t, c, maxDepth, k, allocations[0]);
    assert es[1..] == Trail(t, c, maxDepth, k', allocations[1..]);
    if i == 0 {
      FirstReport(t, c, maxDepth, k', allocations[1..], j - 1);
      assert es[1..j] == es[1..][..j - 1];
    } else {
      ReportsApart(t, c, maxDepth, k', allocations[1..], i - 1, j - 1);
      assert es[i + 1..j] == es[1..][i..j - 1];
    }
  }

  /** Each visit to `yyerrlab` but two is paid for by a token shifted or a token discarded, as
      long as every visit has a lookahead to blame. */
  lemma {:induction false} RecoveryBounded(t: Tables, c: Certificate, maxDepth: nat, k: Config, allocations: seq<bool>)
    requires Sound(t, c, k)
    requires forall e | e in Trail(t, c, maxDepth, k, allocations) && e.Erred? :: e.look.Tok?
    ensures var es := Trail(t, c, maxDepth, k, allocations);
      Errors(es) <= Shifts(es) + Discards(es) + (if k.errStatus == 3 then 1 else 2)
    decreases |allocations|
  {
    hide Sound, Advance, Happens;
    var es := Trail(t, c, maxDepth, k, allocations);
    if es != [] {
      assert CanStep(t, c, k);
      AdvanceSound(t, c, maxDepth, k, allocations[0]);
      StatusAfter(t, c, maxDepth, k, allocations[0]);
      var k' := Advance(t, c, maxDepth, k, allocations[0]);
      var rest := Trail(t, c, maxDepth, k', allocations[1..]);
      assert es[1..] == rest;
      assert es[0] in es;
      assert forall e | e in rest :: e in es;
      RecoveryBounded(t, c, maxDepth, k', allocations[1..]);
    }
  }

  /** The tokens shifted or discarded, in order. */
  function Consumed(es: seq<Event>): seq<nat> {
    if es == [] then []
    else
      (match es[0]
       case Shifted(token) => [token]
       case Erred(_, Tok(token), true) => [token]
       case _ => []) + Consumed(es[1..])
  }

  /** The tokens read, but for the one in hand. */
  function Taken(k: Config): seq<nat> {
    if k.look.Tok? && k.pos > 0 then Delivered(k.text, k.pos - 1) else Delivered(k.text, k.pos)
  }

  /** The token in hand is the last one read. */
  predicate InHand(k: Config) {
    k.look.Tok? ==> k.pos > 0 && k.look.token == TokenAt(k.text, k.pos - 1)
  }

  /** Tokens are read from the lexer one by one, and leave the parser by being shifted or discarded. */
  lemma OneTaken(t: Tables, c: Certificate, maxDepth: nat, k: Config, allocates: bool)
    requires CanStep(t, c, k) && InHand(k)
    ensures var k' := Advance(t, c, maxDepth, k, allocates);
      && InHand(k') && k'.text == k.text
      && Taken(k') == Taken(k) + Consumed([Happens(t, c, k)])
  {
    hide Checked, IsPath, Sound, ActionSound, Recover, ParserMachine.Push;
    StatusAfter(t, c, maxDepth, k, allocates);
    AdvanceText(t, c, maxDepth, k, allocates);
    StatusBound(t, c, k);
    Decided(t, c, k);
    var (k1, a) := Decide(t, k);
    if a.Fail? { RecoverPos(t, maxDepth, k1, allocates); }
    assert k.look.NoLook? ==>
      Delivered(k.text, k.pos + 1) == Delivered(k.text, k.pos) + [TokenAt(k.text, k.pos)];
    assert k.look.Tok? ==> Delivered(k.text, k.pos) == Delivered(k.text, k.pos - 1) + [k.look.token];
    var e := Happens(t, c, k);
    assert Consumed([e][1..]) == [];
  }

  lemma RecoverPos(t: Tables, maxDepth: nat, k: Config, allocates: bool)
    requires t.Sized() && |k.ss| == |k.vs| > 0
    ensures var k' := Recover(t, maxDepth, k, allocates); k'.pos == k.pos && k'.text == k.text
  {
    hide ErrorHeight;
  }

  lemma {:induction false} ConsumedMore(e: Event, es: seq<Event>)
    ensures Consumed([e] + es) == Consumed([e]) + Consumed(es)
  {
    assert ([e] + es)[1..] == es && [e][1..] == [];
  }

  /** No token is lost and none is made up: those shifted and those discarded, in their order, are those read on the
      way, up to the one in hand. */
  lemma {:induction false} TokensConserved(t: Tables, c: Certificate, maxDepth: nat, k: Config, allocations: seq<bool>)
    requires Sound(t, c, k) && InHand(k)
    ensures var k' := Run(t, c, maxDepth, k, allocations);
      InHand(k') && Taken(k') == Taken(k) + Consumed(Trail(t, c, maxDepth, k, allocations))
    decreases |allocations|
  {
    hide Sound, Advance, Happens, Taken, InHand;
    if allocations != [] && k.status.Running? {
      assert CanStep(t, c, k);
      AdvanceSound(t, c, maxDepth, k, allocations[0]);
      OneTaken(t, c, maxDepth, k, allocations[0]);
      var k' := Advance(t, c, maxDepth, k, allocations[0]);
      TokensConserved(t, c, maxDepth, k', allocations[1..]);
      ConsumedMore(Happens(t, c, k), Trail(t, c, maxDepth, k', allocations[1..]));
    }
  }

  function Reports(es: seq<Event>): nat {
    if es == [] then 0 else (if es[0].Erred? && es[0].reports then 1 else 0) + Reports(es[1..])
  }

  /** Errors are counted as they are reported. */
  lemma {:induction false} ReportsCounted(t: Tables, c: Certificate, maxDepth: nat, k: Config, allocations: seq<bool>)
    requires Sound(t, c, k)
    ensures Run(t, c, maxDepth, k, allocations).nerrs == k.nerrs + Reports(Trail(t, c, maxDepth, k, allocations))
    decreases |allocations|
  {
    hide Sound, Advance, Happens;
    if allocations != [] && k.status.Running? {
      assert CanStep(t, c, k);
      AdvanceSound(t, c, maxDepth, k, allocations[0]);
      OneCounted(t, c, maxDepth, k, allocations[0]);
      ReportsCounted(t, c, maxDepth, Advance(t, c, maxDepth, k, allocations[0]), allocations[1..]);
    }
  }

  lemma OneCounted(t: Tables, c: Certificate, maxDepth: nat, k: Config, allocates: bool)
    requires CanStep(t, c, k)
    ensures var e := Happens(t, c, k);
      Advance(t, c, maxDepth, k, allocates).nerrs == k.nerrs + if e.Erred? && e.reports then 1 else 0
  {
    hide Checked, IsPath, Sound, ActionSound, ErrorHeight;
    StatusBound(t, c, k);
    Decided(t, c, k);
  }

  /** State `h - 1` of the stack is the topmost one that shifts the error token. */
  predicate Catches(t: Tables, ss: seq<nat>, h: nat)
    requires t.Sized()
  {
    0 < h <= |ss| && ShiftsError(t, ss[h - 1]) && forall i | h <= i < |ss| :: !ShiftsError(t, ss[i])
  }

  /** Whether a visit to `yyerrlab` is the last one. */
  ghost predicate GivesUp(t: Tables, ss: seq<nat>, errStatus: nat, look: Look)
    requires t.Sized()
  {
    (errStatus == 3 && look == Tok(EOF)) || forall h: nat :: !Catches(t, ss, h)
  }

  /** The stack of `k` has been popped down to the state that shifts the error token, at height `h`, and that has been
      shifted. */
  predicate ErrorShifted(t: Tables, k: Config, k': Config, h: nat)
    requires t.Sized() && |k.ss| == |k.vs|
  {
    && Catches(t, k.ss, h) && k'.errStatus == 3 && k'.vs == k.vs[..h] + [Leaf(t.errTok)]
    && k.ss[h - 1] < t.NStates()
    && var a := t.Action(k.ss[h - 1], t.errTok); a.ShiftTo? && k'.ss == k.ss[..h] + [a.state]
  }

  lemma RecoverMeans(t: Tables, maxDepth: nat, k: Config, allocates: bool)
    requires t.Sized() && |k.ss| == |k.vs| > 0 && k.status.Running?
    ensures var k' := Recover(t, maxDepth, k, allocates);
      && (k'.status.Aborted? <==> GivesUp(t, k.ss, k.errStatus, k.look))
      && (!k'.status.Aborted? ==> exists h: nat :: ErrorShifted(t, k, k', h))
  {
    hide t.Action, t.Sized;
    var h := ErrorHeight(t, k.ss, |k.ss|);
    if h > 0 { assert Catches(t, k.ss, h); }
    var k' := Recover(t, maxDepth, k, allocates);
    if !(k.errStatus == 3 && k.look == Tok(EOF)) {
      if h > 0 { assert ErrorShifted(t, k, k', h); }
    }
  }

  /** A visit to `yyerrlab` gives up exactly at the end of input with the error status 3, or where no state of the
      stack shifts the error token; otherwise it pops down to the topmost one that does, and shifts it. */
  lemma RecoverExactly(t: Tables, c: Certificate, maxDepth: nat, k: Config, allocates: bool)
    requires CanStep(t, c, k) && Happens(t, c, k).Erred?
    ensures t.Sized() && |k.vs| == |k.ss|
    ensures var k' := Advance(t, c, maxDepth, k, allocates);
      && (k'.status.Aborted? <==> GivesUp(t, k.ss, k.errStatus, Happens(t, c, k).look))
      && (!k'.status.Aborted? ==> exists h: nat :: ErrorShifted(t, k, k', h))
  {
    hide Checked, IsPath, Sound, ActionSound, Recover, ErrorShifted;
    StatusBound(t, c, k);
    Decided(t, c, k);
    var k1 := Decide(t, k).0;
    RecoverMeans(t, maxDepth, k1, allocates);
    var k' := Advance(t, c, maxDepth, k, allocates);
    if !k'.status.Aborted? {
      var h: nat :| ErrorShifted(t, k1, k', h);
      SameStacks(t, k1, k, k', h);
    }
  }

  lemma SameStacks(t: Tables, k1: Config, k: Config, k': Config, h: nat)
    requires t.Sized() && k1.ss == k.ss && k1.vs == k.vs && |k.ss| == |k.vs|
    requires ErrorShifted(t, k1, k', h)
    ensures ErrorShifted(t, k, k', h)
  {
  }
}
