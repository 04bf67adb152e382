/** The bound on the number of steps does not matter to what comes out, if it is enough. */
module GlrFuel {
  import opened LrTables
  import opened GlrForest
  import opened GlrMachine
  import opened GlrRun
  import opened GlrStack
  import opened GlrProcess
  import opened GlrParse

  lemma {:induction false} ProcessMore(d: GlrTables, sup: Supply, text: seq<nat>, p: Point, k: nat, fuel: nat,
                                       more: nat)
    requires fuel <= more && Process(d, sup, text, p, k, fuel) != Unfinished
    ensures Process(d, sup, text, p, k, more) == Process(d, sup, text, p, k, fuel)
    decreases fuel, 1, 0
  {
    hide Kill, Follow, ReduceOn, d.lr.Action, d.lr.Default;
    if d.lr.Sized() && k < |p.g.tops| && p.g.tops[k] != NULL {
      var s, token := StateOf(d, p.g, k), TokenAt(text, p.g.pos);
      if s == d.lr.final {
      } else if d.lr.IsDefaulted(s) {
        match d.lr.Default(s)
        case ReduceBy(r) => ReduceOnMore(d, sup, text, p, k, r, fuel - 1, more - 1);
        case _ =>
      } else {
        FollowMore(d, sup, text, p, k, d.ConflictAt(s, token), fuel - 1, more - 1);
        var v := Follow(d, sup, text, p, k, d.ConflictAt(s, token), fuel - 1);
        if v.Ends? {
          match d.lr.Action(s, token)
          case ReduceBy(r) => ReduceOnMore(d, sup, text, v.p, k, r, fuel - 1, more - 1);
          case _ =>
        }
      }
    }
  }

  lemma {:induction false} ReduceOnMore(d: GlrTables, sup: Supply, text: seq<nat>, p: Point, k: nat, r: nat, fuel: nat,
                                        more: nat)
    requires fuel <= more && ReduceOn(d, sup, text, p, k, r, fuel) != Unfinished
    ensures ReduceOn(d, sup, text, p, k, r, more) == ReduceOn(d, sup, text, p, k, r, fuel)
    decreases fuel, 1, 1
  {
    hide Reducing, Process;
    var v := Reducing(d, sup, p, k, r);
    if v.Ends? { ProcessMore(d, sup, text, v.p, k, fuel, more); }
  }

  lemma {:induction false} FollowMore(d: GlrTables, sup: Supply, text: seq<nat>, p: Point, k: nat, i: nat, fuel: nat,
                                      more: nat)
    requires fuel <= more && Follow(d, sup, text, p, k, i, fuel) != Unfinished
    ensures Follow(d, sup, text, p, k, i, more) == Follow(d, sup, text, p, k, i, fuel)
    decreases fuel, 2, |d.confl| - i
  {
    hide ReduceOn, SplitStack;
    if i < |d.confl| && d.confl[i] != 0 && k < |p.g.tops| {
      ReduceOnMore(d, sup, text, p.(g := SplitStack(p.g, k)), |p.g.tops|, d.confl[i], fuel, more);
      var v := Forked(d, sup, text, p, k, d.confl[i], fuel);
      if v.Ends? { FollowMore(d, sup, text, v.p, k, i + 1, fuel, more); }
    }
  }

  lemma {:induction false} ProcessFromMore(d: GlrTables, sup: Supply, text: seq<nat>, p: Point, k: nat, rounds: nat,
                                           fuel: nat, rounds': nat, more: nat)
    requires rounds <= rounds' && fuel <= more && ProcessFrom(d, sup, text, p, k, rounds, fuel) != Unfinished
    ensures ProcessFrom(d, sup, text, p, k, rounds', more) == ProcessFrom(d, sup, text, p, k, rounds, fuel)
    decreases rounds
  {
    hide Process;
    if k < |p.g.tops| {
      ProcessMore(d, sup, text, p, k, fuel, more);
      var v := Process(d, sup, text, p, k, fuel);
      if v.Ends? { ProcessFromMore(d, sup, text, v.p, k + 1, rounds - 1, fuel, rounds' - 1, more); }
    }
  }

  lemma RoundMore(d: GlrTables, sup: Supply, text: seq<nat>, p: Point, fuel: nat, more: nat)
    requires fuel <= more && RoundOn(d, sup, text, p, fuel) != Unfinished
    ensures RoundOn(d, sup, text, p, more) == RoundOn(d, sup, text, p, fuel)
  {
    hide ProcessFrom, Shifting, Survivors, Targets;
    ProcessFromMore(d, sup, text, p, 0, fuel, fuel, more, more);
  }

  lemma {:induction false} RoundsMore(d: GlrTables, sup: Supply, text: seq<nat>, p: Point, rounds: nat, fuel: nat,
                                      rounds': nat, more: nat)
    requires rounds <= rounds' && fuel <= more && Rounds(d, sup, text, p, rounds, fuel) != Unfinished
    ensures Rounds(d, sup, text, p, rounds', more) == Rounds(d, sup, text, p, rounds, fuel)
    decreases rounds
  {
    hide RoundOn;
    RoundMore(d, sup, text, p, fuel, more);
    var v := RoundOn(d, sup, text, p, fuel);
    if v.Ends? && |v.p.g.tops| != 1 { RoundsMore(d, sup, text, v.p, rounds - 1, fuel, rounds' - 1, more); }
  }

  lemma {:induction false} RunNowMore(d: GlrTables, sup: Supply, text: seq<nat>, p: Point, fuel: nat, more: nat)
    requires fuel <= more && RunNow(d, sup, text, p, fuel).1 != TooLong
    ensures RunNow(d, sup, text, p, more) == RunNow(d, sup, text, p, fuel)
    decreases fuel, 0
  {
    hide NowReduced, NowShifted, d.lr.Action, RunOn;
    match d.lr.Action(StateOf(d, p.g, 0), TokenAt(text, p.g.pos))
    case ShiftTo(target) =>
      var g := NowShifted(p.g, target, TokenAt(text, p.g.pos));
      if RunOn(d, sup, text, g, p.m, fuel - 1).1 != TooLong { RunOnMore(d, sup, text, g, p.m, fuel - 1, more - 1); }
    case Fail =>
    case ReduceBy(r) =>
      var g := NowReduced(d.lr, p.g, r);
      if RunOn(d, sup, text, g, p.m, fuel - 1).1 != TooLong { RunOnMore(d, sup, text, g, p.m, fuel - 1, more - 1); }
  }

  lemma {:induction false} RunOnMore(d: GlrTables, sup: Supply, text: seq<nat>, g: Glr, m: Memory, fuel: nat, more: nat)
    requires fuel <= more && RunOn(d, sup, text, g, m, fuel).1 != TooLong
    ensures RunOn(d, sup, text, g, m, more) == RunOn(d, sup, text, g, m, fuel)
    decreases fuel, 1
  {
    hide RunNow, Reserved;
    var v := Reserved(sup, g, m);
    if v.Ends? { RunNowMore(d, sup, text, v.p, fuel, more); }
  }
}
