/** The selection among the options of a state: `yypreference` and the first half of `yyresolveValue`. */
module GlrChoice {
  import opened Grammar
  import opened LrTables
  import opened GlrForest
  import opened GlrOptions
  import opened GlrLoose
  import opened GlrRank
  import opened GlrResolve
  import opened UnitSteps

  /** `yydprec` and `yymerger`, one entry a rule. */
  datatype Priorities = Priorities(dprec: seq<nat>, merger: seq<nat>)

  datatype Preference = NoCombination | UserMerge | PreferFirst | PreferSecond

  /** `yypreference`. */
  function Prefer(w: Priorities, r0: nat, r1: nat): Preference
    requires r0 < |w.dprec| == |w.merger| && r1 < |w.dprec|
  {
    var p0, p1 := w.dprec[r0], w.dprec[r1];
    if p0 == p1 then
      if w.merger[r0] == 0 || w.merger[r0] != w.merger[r1] then NoCombination else UserMerge
    else if p0 == 0 || p1 == 0 then NoCombination
    else if p0 < p1 then PreferSecond
    else PreferFirst
  }

  /** The rules of a list of options. */
  function RulesOf(cells: Cells, ks: seq<Ref>): (rs: seq<nat>)
    ensures |rs| == |ks|
    ensures forall j | 0 <= j < |ks| && IsOption(cells, ks[j]) :: rs[j] == cells[ks[j]].rule
  {
    seq(|ks|, j requires 0 <= j < |ks| => if IsOption(cells, ks[j]) then cells[ks[j]].rule else 0)
  }

  /** Option number `b` of those kept has a higher precedence than any before it and no lower one than
      any after it; those after it with the same precedence all have its merger, and there are some
      exactly if `merge` is set. */
  ghost predicate Picks(w: Priorities, rs: seq<nat>, b: nat, merge: bool) {
    && |w.dprec| == |w.merger| && b < |rs|
    && (forall j | 0 <= j < |rs| :: rs[j] < |w.dprec|)
    && (forall j | 0 <= j < b :: w.dprec[rs[j]] < w.dprec[rs[b]])
    && (forall j | b < j < |rs| :: w.dprec[rs[j]] <= w.dprec[rs[b]])
    && (forall j | b < j < |rs| && w.dprec[rs[j]] == w.dprec[rs[b]] :: w.merger[rs[j]] == w.merger[rs[b]] != 0)
    && (merge <==> exists j :: b < j < |rs| && w.dprec[rs[j]] == w.dprec[rs[b]])
  }

  /** There is a choice between options of the rules `r` and `r'`: both have precedences, and different ones; or they
      are on a level and share a merge function. */
  predicate Combinable(w: Priorities, r: nat, r': nat) {
    && r < |w.dprec| == |w.merger| && r' < |w.dprec|
    && if w.dprec[r] == w.dprec[r'] then w.merger[r] == w.merger[r'] > 0 else w.dprec[r] > 0 && w.dprec[r'] > 0
  }

  /** Number `a` is the first of those of the highest precedence among the first `n`. */
  predicate Foremost(w: Priorities, rs: seq<nat>, n: nat, a: nat) {
    && a < n <= |rs| && (forall j | 0 <= j < n :: rs[j] < |w.dprec|)
    && (forall j | 0 <= j < a :: w.dprec[rs[j]] < w.dprec[rs[a]])
    && (forall j | a < j < n :: w.dprec[rs[j]] <= w.dprec[rs[a]])
  }

  /** For each of the rules there is a choice between it and the foremost of those before it. */
  ghost predicate Orderly(w: Priorities, rs: seq<nat>) {
    forall n: nat | 0 < n < |rs| :: JoinsAt(w, rs, n)
  }

  ghost predicate JoinsAt(w: Priorities, rs: seq<nat>, n: nat)
    requires n < |rs|
  {
    exists a: nat :: Foremost(w, rs, n, a) && Combinable(w, rs[a], rs[n])
  }

  /** One more option changes the choice if there is one between it and the best so far, and only then. */
  lemma PickNext(w: Priorities, rs: seq<nat>, b: nat, merge: bool, r: nat)
    requires Picks(w, rs, b, merge) && r < |w.dprec|
    ensures match Prefer(w, rs[b], r)
      case NoCombination => !Combinable(w, rs[b], r)
      case UserMerge => Combinable(w, rs[b], r) && Picks(w, rs + [r], b, true)
      case PreferFirst => Combinable(w, rs[b], r) && Picks(w, rs + [r], b, merge)
      case PreferSecond => Combinable(w, rs[b], r) && Picks(w, rs + [r], |rs|, false)
    ensures Orderly(w, rs) && Combinable(w, rs[b], r) ==> Orderly(w, rs + [r])
  {
    hide Picks, Combinable, Orderly, Prefer;
    PicksNext(w, rs, b, merge, r);
    if Orderly(w, rs) && Combinable(w, rs[b], r) { OrderlyNext(w, rs, b, merge, r); }
  }

  lemma PicksNext(w: Priorities, rs: seq<nat>, b: nat, merge: bool, r: nat)
    requires Picks(w, rs, b, merge) && r < |w.dprec|
    ensures |w.merger| == |w.dprec| && b < |rs| && rs[b] < |w.dprec|
    ensures match Prefer(w, rs[b], r)
      case NoCombination => !Combinable(w, rs[b], r)
      case UserMerge => Combinable(w, rs[b], r) && Picks(w, rs + [r], b, true)
      case PreferFirst => Combinable(w, rs[b], r) && Picks(w, rs + [r], b, merge)
      case PreferSecond => Combinable(w, rs[b], r) && Picks(w, rs + [r], |rs|, false)
  {
    var rs' := rs + [r];
    assert forall j | 0 <= j < |rs| :: rs'[j] == rs[j];
    assert rs'[|rs|] == r;
    if Prefer(w, rs[b], r).UserMerge? {
      assert b < |rs| < |rs'| && w.dprec[rs'[|rs|]] == w.dprec[rs'[b]];
    } else if Prefer(w, rs[b], r).PreferFirst? {
      if merge {
        var j :| b < j < |rs| && w.dprec[rs[j]] == w.dprec[rs[b]];
        assert w.dprec[rs'[j]] == w.dprec[rs'[b]];
      }
    }
  }

  lemma OrderlyNext(w: Priorities, rs: seq<nat>, b: nat, merge: bool, r: nat)
    requires Picks(w, rs, b, merge) && r < |w.dprec| && Orderly(w, rs) && Combinable(w, rs[b], r)
    ensures Orderly(w, rs + [r])
  {
    hide Combinable;
    var rs' := rs + [r];
    assert forall j | 0 <= j < |rs| :: rs'[j] == rs[j];
    forall n: nat | 0 < n < |rs'|
      ensures JoinsAt(w, rs', n)
    {
      if n < |rs| {
        assert JoinsAt(w, rs, n);
        var a: nat :| Foremost(w, rs, n, a) && Combinable(w, rs[a], rs[n]);
        assert Foremost(w, rs', n, a);
      } else {
        assert Foremost(w, rs', n, b) && rs'[b] == rs[b] && rs'[n] == r;
      }
    }
  }

  /** Something that has been kept is the same option as `x`. */
  ghost predicate Duplicate(t: Tables, cells: Cells, done: seq<Ref>, x: Ref) {
    exists y :: y in done && SameOption(t, cells, y, x)
  }

  ghost predicate SameOption(t: Tables, cells: Cells, y: Ref, x: Ref) {
    IsOption(cells, y) && IsOption(cells, x) && cells[y].rule < |t.r2| && Identical(t, cells, y, x)
  }

  /** `yypreference` of two cells; nothing but options can be combined. */
  function PreferAt(w: Priorities, cells: Cells, x: Ref, y: Ref): Preference {
    if IsOption(cells, x) && IsOption(cells, y) && cells[x].rule < |w.dprec| == |w.merger| && cells[y].rule < |w.dprec|
    then Prefer(w, cells[x].rule, cells[y].rule) else NoCombination
  }

  /** The outcome of the selection: two options between which there is no choice, or the options kept, the
      number of the best of them, and whether others are to be merged with it. */
  datatype Choice = Clash(best: Ref, other: Ref) | Chosen(kept: seq<Ref>, b: nat, merge: bool)

  /** The selection from a list of options, the first ones of which have been dealt with. */
  ghost function ChoiceFrom(t: Tables, w: Priorities, cells: Cells, kept: seq<Ref>, b: nat, merge: bool, rest: seq<Ref>)
    : Choice
    requires b < |kept|
    decreases |rest|
  {
    if rest == [] then Chosen(kept, b, merge)
    else if SameOption(t, cells, kept[b], rest[0]) then ChoiceFrom(t, w, cells, kept, b, merge, rest[1..])
    else match PreferAt(w, cells, kept[b], rest[0])
      case NoCombination => Clash(kept[b], rest[0])
      case UserMerge => ChoiceFrom(t, w, cells, kept + [rest[0]], b, true, rest[1..])
      case PreferFirst => ChoiceFrom(t, w, cells, kept + [rest[0]], b, merge, rest[1..])
      case PreferSecond => ChoiceFrom(t, w, cells, kept + [rest[0]], |kept|, false, rest[1..])
  }

  /** The selection among the options of state `i`. */
  ghost function ChoiceOf(t: Tables, w: Priorities, cells: Cells, i: Ref): Choice
    requires IsState(cells, i) && cells[i].sem.Chain?
  {
    var all := ChainOf(cells, cells[i].sem.first);
    if all == [] then Chosen([], 0, false) else ChoiceFrom(t, w, cells, [all[0]], 0, false, all[1..])
  }

  /** The options `ks` are kept, and there has been a choice every time. */
  ghost predicate Sorted(w: Priorities, cells: Cells, ks: seq<Ref>, b: nat, merge: bool) {
    Picks(w, RulesOf(cells, ks), b, merge) && Orderly(w, RulesOf(cells, ks))
  }

  /** There is a choice between two options. */
  predicate CombinableAt(w: Priorities, cells: Cells, x: Ref, y: Ref) {
    IsOption(cells, x) && IsOption(cells, y) && Combinable(w, cells[x].rule, cells[y].rule)
  }

  /** If it ends with a clash, two options of the list are different and neither has a precedence over the other nor
      a merge function in common with it; otherwise there was a choice every time, and all options but duplicates
      are kept. */
  lemma {:induction false} ClashIsReal(t: Tables, w: Priorities, cells: Cells, kept: seq<Ref>, b: nat, merge: bool,
                                       rest: seq<Ref>)
    requires b < |kept| && Sorted(w, cells, kept, b, merge)
    requires forall x | x in kept + rest :: IsOption(cells, x) && cells[x].rule < |w.dprec|
    ensures match ChoiceFrom(t, w, cells, kept, b, merge, rest)
      case Clash(x, y) =>
        x in kept + rest && y in rest && !SameOption(t, cells, x, y) && !CombinableAt(w, cells, x, y)
      case Chosen(all, best, m) =>
        && best < |all| && kept <= all && Sorted(w, cells, all, best, m)
        && forall x | x in rest :: x in all || Duplicate(t, cells, all, x)
    decreases |rest|
  {
    hide Picks, SameOption, Prefer, RulesOf, Combinable, Orderly, Duplicate;
    if rest != [] {
      var y := rest[0];
      assert kept[b] in kept + rest && y in kept + rest;
      assert forall x | x in kept + rest[1..] :: x in kept + rest;
      assert forall x | x in kept + [y] + rest[1..] :: x in kept + rest;
      assert forall x | x in rest :: x == y || x in rest[1..];
      if SameOption(t, cells, kept[b], y) {
        ClashIsReal(t, w, cells, kept, b, merge, rest[1..]);
        var after := ChoiceFrom(t, w, cells, kept, b, merge, rest[1..]);
        if after.Chosen? { DuplicateOf(t, cells, after.kept, kept[b], y); }
      } else {
        PickedRule(w, cells, kept, b, merge, y);
        match PreferAt(w, cells, kept[b], y) {
          case NoCombination =>
          case UserMerge => ClashIsReal(t, w, cells, kept + [y], b, true, rest[1..]);
          case PreferFirst => ClashIsReal(t, w, cells, kept + [y], b, merge, rest[1..]);
          case PreferSecond => ClashIsReal(t, w, cells, kept + [y], |kept|, false, rest[1..]);
        }
        var after := ChoiceFrom(t, w, cells, kept, b, merge, rest);
        assert after.Chosen? ==> kept + [y] <= after.kept && y in kept + [y];
      }
    }
  }

  lemma DuplicateOf(t: Tables, cells: Cells, done: seq<Ref>, y: Ref, x: Ref)
    requires y in done && SameOption(t, cells, y, x)
    ensures Duplicate(t, cells, done, x)
  {
  }

  /** The clash is with the best of the options that have been dealt with by then. */
  lemma {:induction false} ClashIsFirst(t: Tables, w: Priorities, cells: Cells, kept: seq<Ref>, b: nat, merge: bool,
                                        rest: seq<Ref>)
    returns (n: nat)
    requires b < |kept| && ChoiceFrom(t, w, cells, kept, b, merge, rest).Clash?
    ensures n < |rest| && ChoiceFrom(t, w, cells, kept, b, merge, rest).other == rest[n]
    ensures var before := ChoiceFrom(t, w, cells, kept, b, merge, rest[..n]);
      && before.Chosen? && before.b < |before.kept|
      && before.kept[before.b] == ChoiceFrom(t, w, cells, kept, b, merge, rest).best
    decreases |rest|
  {
    hide SameOption, PreferAt;
    var y := rest[0];
    var m: nat;
    if SameOption(t, cells, kept[b], y) {
      m := ClashIsFirst(t, w, cells, kept, b, merge, rest[1..]);
    } else {
      match PreferAt(w, cells, kept[b], y)
      case NoCombination => return 0;
      case UserMerge => m := ClashIsFirst(t, w, cells, kept + [y], b, true, rest[1..]);
      case PreferFirst => m := ClashIsFirst(t, w, cells, kept + [y], b, merge, rest[1..]);
      case PreferSecond => m := ClashIsFirst(t, w, cells, kept + [y], |kept|, false, rest[1..]);
    }
    n := m + 1;
    assert rest[..n][1..] == rest[1..][..m] && rest[..n][0] == y;
  }

  /** Where something else than the best option is kept, all those kept have precedences or none has one. */
  lemma ChosenLevels(w: Priorities, rs: seq<nat>, n: nat, i: nat)
    requires Orderly(w, rs) && i < n < |rs|
    ensures rs[i] < |w.dprec| && rs[n] < |w.dprec|
    ensures w.dprec[rs[i]] == 0 <==> w.dprec[rs[n]] == 0
    decreases n
  {
    hide Orderly;
    var a := ForemostOf(w, rs, n);
    if i < a { ChosenLevels(w, rs, a, i); }
    if a < i { ChosenLevels(w, rs, i, a); }
  }

  lemma ForemostOf(w: Priorities, rs: seq<nat>, n: nat) returns (a: nat)
    requires Orderly(w, rs) && 0 < n < |rs|
    ensures a < n && Combinable(w, rs[a], rs[n])
  {
    hide Combinable;
    assert JoinsAt(w, rs, n);
    a :| Foremost(w, rs, n, a) && Combinable(w, rs[a], rs[n]);
  }

  /** The options `done` have all been kept. */
  ghost predicate Clean(t: Tables, w: Priorities, cells: Cells, done: seq<Ref>, b: nat, merge: bool) {
    && b < |done|
    && forall rest ::
       ChoiceFrom(t, w, cells, [done[0]], 0, false, done[1..] + rest) == ChoiceFrom(t, w, cells, done, b, merge, rest)
  }

  lemma CleanFirst(t: Tables, w: Priorities, cells: Cells, i: Ref)
    requires IsState(cells, i) && cells[i].sem.Chain? && IsOption(cells, cells[i].sem.first)
    requires ChainOf(cells, cells[i].sem.first) == [cells[i].sem.first] + ChainOf(cells, cells[cells[i].sem.first].next)
    ensures var k := cells[i].sem.first;
      Clean(t, w, cells, [k], 0, false)
      && ChoiceFrom(t, w, cells, [k], 0, false, ChainOf(cells, cells[k].next)) == ChoiceOf(t, w, cells, i)
  {
    var k := cells[i].sem.first;
    forall rest
      ensures ChoiceFrom(t, w, cells, [k], 0, false, [k][1..] + rest) == ChoiceFrom(t, w, cells, [k], 0, false, rest)
    {
      assert [k][1..] + rest == rest;
    }
  }

  /** One more option in the selection. */
  lemma CleanKeep(t: Tables, w: Priorities, cells: Cells, done: seq<Ref>, b: nat, merge: bool, y: Ref)
    requires Clean(t, w, cells, done, b, merge) && !SameOption(t, cells, done[b], y)
    ensures match PreferAt(w, cells, done[b], y)
      case NoCombination => true
      case UserMerge => Clean(t, w, cells, done + [y], b, true)
      case PreferFirst => Clean(t, w, cells, done + [y], b, merge)
      case PreferSecond => Clean(t, w, cells, done + [y], |done|, false)
  {
    hide SameOption, PreferAt;
    forall rest: seq<Ref>
      ensures (done + [y])[1..] + rest == done[1..] + ([y] + rest)
      ensures ([y] + rest)[0] == y && ([y] + rest)[1..] == rest
      ensures ChoiceFrom(t, w, cells, [done[0]], 0, false, done[1..] + ([y] + rest)) ==
        ChoiceFrom(t, w, cells, done, b, merge, [y] + rest)
    {
    }
    assert (done + [y])[0] == done[0];
  }

  lemma ChoiceStep(t: Tables, w: Priorities, cells: Cells, kept: seq<Ref>, b: nat, merge: bool, y: Ref, rest: seq<Ref>)
    requires b < |kept|
    ensures ChoiceFrom(t, w, cells, kept, b, merge, [y] + rest) ==
      if SameOption(t, cells, kept[b], y) then ChoiceFrom(t, w, cells, kept, b, merge, rest)
      else match PreferAt(w, cells, kept[b], y)
        case NoCombination => Clash(kept[b], y)
        case UserMerge => ChoiceFrom(t, w, cells, kept + [y], b, true, rest)
        case PreferFirst => ChoiceFrom(t, w, cells, kept + [y], b, merge, rest)
        case PreferSecond => ChoiceFrom(t, w, cells, kept + [y], |kept|, false, rest)
  {
    hide SameOption, PreferAt;
    assert ([y] + rest)[0] == y && ([y] + rest)[1..] == rest;
  }

  /** Links and values do not matter to the comparison of two options. */
  lemma SameOptionFrame(t: Tables, w: Priorities, a: Cells, b: Cells, y: Ref, x: Ref)
    requires SameFrame(a, b)
    ensures SameOption(t, a, y, x) == SameOption(t, b, y, x) && PreferAt(w, a, y, x) == PreferAt(w, b, y, x)
  {
    hide Climb, SamePosn, Prefer;
    FrameKind(a, b, x);
    FrameKind(a, b, y);
    if IsOption(a, x) && IsOption(a, y) {
      forall d: nat
        ensures SamePosn(a, Climb(a, a[y].rhs, d), Climb(a, a[x].rhs, d)) ==
          SamePosn(b, Climb(b, b[y].rhs, d), Climb(b, b[x].rhs, d))
      {
        ClimbFrame(a, b, a[y].rhs, d);
        ClimbFrame(a, b, a[x].rhs, d);
        PosnFrame(a, b, Climb(a, a[y].rhs, d), Climb(a, a[x].rhs, d));
      }
    }
  }

  lemma FrameKind(a: Cells, b: Cells, x: Ref)
    requires SameFrame(a, b)
    ensures IsOption(a, x) == IsOption(b, x) && (IsOption(a, x) ==> a[x].rule == b[x].rule && a[x].rhs == b[x].rhs)
  {
    if 0 <= x < |a| { assert CellFrame(a[x], b[x]); }
  }

  lemma PosnFrame(a: Cells, b: Cells, i: Ref, j: Ref)
    requires SameFrame(a, b)
    ensures SamePosn(a, i, j) == SamePosn(b, i, j)
  {
    if 0 <= i < |a| { assert CellFrame(a[i], b[i]); }
    if 0 <= j < |a| { assert CellFrame(a[j], b[j]); }
  }

  lemma {:induction false} ChoiceFrame(t: Tables, w: Priorities, a: Cells, b: Cells, kept: seq<Ref>, best: nat,
                                       merge: bool, rest: seq<Ref>)
    requires SameFrame(a, b) && best < |kept|
    ensures ChoiceFrom(t, w, a, kept, best, merge, rest) == ChoiceFrom(t, w, b, kept, best, merge, rest)
    decreases |rest|
  {
    hide SameOption, PreferAt, SameFrame;
    if rest != [] {
      SameOptionFrame(t, w, a, b, kept[best], rest[0]);
      if SameOption(t, a, kept[best], rest[0]) {
        ChoiceFrame(t, w, a, b, kept, best, merge, rest[1..]);
      } else {
        match PreferAt(w, a, kept[best], rest[0])
        case NoCombination =>
        case UserMerge => ChoiceFrame(t, w, a, b, kept + [rest[0]], best, true, rest[1..]);
        case PreferFirst => ChoiceFrame(t, w, a, b, kept + [rest[0]], best, merge, rest[1..]);
        case PreferSecond => ChoiceFrame(t, w, a, b, kept + [rest[0]], |kept|, false, rest[1..]);
      }
    }
  }

  /** What the selection comes to on the chain as it is now, of which `done` has been kept. */
  lemma ChoiceNow(t: Tables, w: Priorities, before: Cells, now: Cells, i: Ref, done: seq<Ref>, b: nat, merge: bool,
                  rest: seq<Ref>)
    requires SameFrame(before, now) && IsState(now, i) && now[i].sem.Chain? && Clean(t, w, before, done, b, merge)
    requires ChainOf(now, now[i].sem.first) == done + rest
    ensures ChoiceOf(t, w, now, i) == ChoiceFrom(t, w, before, done, b, merge, rest)
  {
    hide SameOption, PreferAt, SameFrame, ChoiceFrom;
    assert (done + rest)[0] == done[0] && (done + rest)[1..] == done[1..] + rest;
    ChoiceFrame(t, w, before, now, [done[0]], 0, false, done[1..] + rest);
  }

  /** A chain none of whose options has changed. */
  lemma {:induction false} ChainKept(a: Cells, b: Cells, k: Ref)
    requires SameFrame(a, b) && forall x | x in ChainOf(a, k) && 0 <= x < |a| :: b[x] == a[x]
    ensures ChainOf(b, k) == ChainOf(a, k) && Chained(b, k) == Chained(a, k)
    decreases k
  {
    if 0 <= k < |a| { assert CellFrame(a[k], b[k]); }
    if IsOption(a, k) && a[k].next < k { ChainKept(a, b, a[k].next); }
  }

  /** The scan of the chain `old` of state `i`: `done` has been kept, the rest is yet to come. */
  ghost predicate Scan(t: Tables, c: Certificate, before: Cells, now: Cells, live: set<Ref>, i: Ref, all: seq<Ref>,
                       done: seq<Ref>) {
    && Kept(t, c, before, now, RankAt(t, c, before, i) + 1)
    && IsState(now, i) && now[i].sem.Chain? && now[i] == before[i]
    && done != [] && Leads(now, i, done)
    && (forall x | x in done ::
        x in live && x in all && IsOption(now, x) && OptionSig(t, now, x) == StateSig(t, now, i))
    && var rest := now[done[|done| - 1]].next;
    && (forall x | x in ChainOf(now, rest) :: x in all)
    && (forall x | x in all :: x in done || x in ChainOf(now, rest) || Duplicate(t, before, done, x))
  }

  lemma ScanStart(t: Tables, c: Certificate, text: seq<nat>, cells: Cells, live: set<Ref>, i: Ref)
    requires Loose(t, c, text, cells, live) && IsState(cells, i) && cells[i].sem.Chain?
    ensures var k := cells[i].sem.first; Scan(t, c, cells, cells, live, i, ChainOf(cells, k), [k])
  {
    hide Loose, Stems, OptionSig, StateSig, RankAt, OptionFits, Duplicate, LinkOk, Kept;
    var k := cells[i].sem.first;
    HeadChain(t, c, text, cells, live, i);
    KeptSelf(t, c, cells, RankAt(t, c, cells, i) + 1);
    FirstLead(cells, i);
    ChainedStep(cells, k);
  }

  lemma FirstLead(cells: Cells, i: Ref)
    requires IsState(cells, i) && cells[i].sem.Chain? && IsOption(cells, cells[i].sem.first)
    ensures Leads(cells, i, [cells[i].sem.first])
  {
    var k := cells[i].sem.first;
    LeadsAppend(cells, i, [], k);
    assert [] + [k] == [k];
  }

  /** The chain as it is now: what has been kept and what is to come. */
  lemma ScanChain(t: Tables, c: Certificate, text: seq<nat>, before: Cells, now: Cells, live: set<Ref>, i: Ref,
                  all: seq<Ref>, done: seq<Ref>)
    requires Loose(t, c, text, now, live) && Scan(t, c, before, now, live, i, all, done)
    ensures ChainOf(now, now[i].sem.first) == done + ChainOf(now, now[done[|done| - 1]].next)
  {
    hide Loose, Stems, OptionSig, StateSig, RankAt, OptionFits, Duplicate, Kept, Leads, LinkOk;
    assert done[|done| - 1] in done;
    forall x | x in done
      ensures now[x].next < x
    {
      LiveFits(t, c, text, now, live, x);
      LinkDown(t, now, live, x);
    }
    var n := now[done[|done| - 1]].next;
    if n == NULL {
      NullChain(now);
    } else {
      NextLive(t, c, text, now, live, done[|done| - 1]);
      LiveChain(t, c, text, now, live, n);
    }
    LeadsToChain(now, i, done);
  }

  lemma NextLive(t: Tables, c: Certificate, text: seq<nat>, cells: Cells, live: set<Ref>, k: Ref)
    requires Loose(t, c, text, cells, live) && k in live && IsOption(cells, k) && cells[k].next != NULL
    ensures cells[k].next in live
  {
    hide Stems, OptionFits, OptionSig;
    LiveFits(t, c, text, cells, live, k);
  }

  /** What the scan has established by the end of the chain. */
  lemma ScanEnd(t: Tables, c: Certificate, text: seq<nat>, before: Cells, now: Cells, live: set<Ref>, i: Ref,
                all: seq<Ref>, done: seq<Ref>)
    requires Loose(t, c, text, now, live) && Scan(t, c, before, now, live, i, all, done)
    requires now[done[|done| - 1]].next == NULL
    ensures ChainOf(now, now[i].sem.first) == done
    ensures forall x | x in done :: x in all
    ensures forall x | x in all :: x in done || Duplicate(t, before, done, x)
  {
    hide Loose, StateSig, OptionSig, RankAt, Duplicate, Kept, Leads;
    NullChain(now);
    ScanChain(t, c, text, before, now, live, i, all, done);
    assert done + [] == done;
  }

  lemma LinkDown(t: Tables, cells: Cells, live: set<Ref>, k: Ref)
    requires IsOption(cells, k) && LinkOk(t, cells, live, k)
    ensures cells[k].next < k
  {
  }

  /** The option that comes next in the scan. */
  lemma ScanNext(t: Tables, c: Certificate, text: seq<nat>, before: Cells, now: Cells, live: set<Ref>, i: Ref,
                 all: seq<Ref>, done: seq<Ref>)
    requires Loose(t, c, text, now, live) && Scan(t, c, before, now, live, i, all, done)
    requires now[done[|done| - 1]].next != NULL
    ensures var k := done[|done| - 1]; var y := now[k].next;
      && y in live && y in all && 0 <= y < k && IsOption(now, y) && OptionSig(t, now, y) == StateSig(t, now, i)
      && now[y].next < y
      && ChainOf(now, y) == [y] + ChainOf(now, now[y].next)
      && OptionFits(t, c, now, y) && RankAt(t, c, now, y) == RankAt(t, c, now, i)
    ensures forall x | x in done :: RankAt(t, c, now, x) == RankAt(t, c, now, i)
    ensures done != [] && done[|done| - 1] in live && IsOption(now, done[|done| - 1]) && 0 <= i < |now| == |before|
  {
    hide Loose, Stems, OptionSig, StateSig, OptionFits, Duplicate, Kept, Leads, RankOf;
    KeptKinds(t, c, before, now, RankAt(t, c, before, i) + 1);
    var k := done[|done| - 1];
    assert k in done;
    LiveFits(t, c, text, now, live, k);
    var y := now[k].next;
    LiveFits(t, c, text, now, live, y);
    LinkDown(t, now, live, y);
    LiveChain(t, c, text, now, live, y);
    ChainedStep(now, y);
  }

  /** Keeping it. */
  lemma ScanKeep(t: Tables, c: Certificate, text: seq<nat>, before: Cells, now: Cells, live: set<Ref>, i: Ref,
                 all: seq<Ref>, done: seq<Ref>)
    requires Loose(t, c, text, now, live) && Scan(t, c, before, now, live, i, all, done)
    requires now[done[|done| - 1]].next != NULL
    ensures Scan(t, c, before, now, live, i, all, done + [now[done[|done| - 1]].next])
  {
    hide Loose, Stems, OptionSig, StateSig, RankAt, OptionFits, Kept, Leads, Duplicate;
    assert done[|done| - 1] in done;
    ScanNext(t, c, text, before, now, live, i, all, done);
    var y := now[done[|done| - 1]].next;
    LeadsAppend(now, i, done, y);
    forall x | x in all
      ensures x in done + [y] || x in ChainOf(now, now[y].next) || Duplicate(t, before, done + [y], x)
    {
      if Duplicate(t, before, done, x) { MoreDuplicates(t, before, done, done + [y], x); }
    }
  }

  lemma MoreDuplicates(t: Tables, cells: Cells, done: seq<Ref>, done': seq<Ref>, x: Ref)
    requires Duplicate(t, cells, done, x) && forall y | y in done :: y in done'
    ensures Duplicate(t, cells, done', x)
  {
  }

  /** Dropping it, after options of lower rank may have changed. */
  lemma ScanDrop(t: Tables, c: Certificate, text: seq<nat>, before: Cells, now: Cells, mid: Cells, live: set<Ref>,
                 i: Ref, all: seq<Ref>, done: seq<Ref>)
    requires Loose(t, c, text, now, live) && Scan(t, c, before, now, live, i, all, done)
    requires now[done[|done| - 1]].next != NULL && Duplicate(t, before, done, now[done[|done| - 1]].next)
    requires Loose(t, c, text, mid, live) && Kept(t, c, now, mid, RankAt(t, c, before, i))
    ensures var p := done[|done| - 1]; IsOption(mid, p) && IsOption(mid, mid[p].next)
    ensures var p := done[|done| - 1]; var after := mid[p := mid[p].(next := mid[mid[p].next].next)];
      Loose(t, c, text, after, live) && Scan(t, c, before, after, live, i, all, done)
  {
    hide Loose, Stems, OptionSig, StateSig, OptionFits, Kept, Leads, Duplicate, RankOf, LinkOk, Scan;
    ScanNext(t, c, text, before, now, live, i, all, done);
    ScanKept(t, c, text, before, now, mid, live, i, all, done);
    var p := done[|done| - 1];
    var y := now[p].next;
    ScanNext(t, c, text, before, mid, live, i, all, done);
    Unlink(t, c, text, mid, live, p);
    var after := mid[p := mid[p].(next := mid[y].next)];
    ScanUnlinked(t, c, text, before, mid, after, live, i, all, done);
  }

  /** The scan is not disturbed by changes at lower ranks. */
  lemma ScanKept(t: Tables, c: Certificate, text: seq<nat>, before: Cells, now: Cells, mid: Cells, live: set<Ref>,
                 i: Ref, all: seq<Ref>, done: seq<Ref>)
    requires Loose(t, c, text, now, live) && Scan(t, c, before, now, live, i, all, done)
    requires now[done[|done| - 1]].next != NULL
    requires Kept(t, c, now, mid, RankAt(t, c, before, i))
    ensures Scan(t, c, before, mid, live, i, all, done)
    ensures var p := done[|done| - 1]; IsOption(mid, p) && mid[p] == now[p]
  {
    hide Loose, Stems, OptionSig, StateSig, OptionFits, Kept, Leads, Duplicate, RankOf, LinkOk, ChainOf;
    var rank := RankAt(t, c, before, i);
    KeptKinds(t, c, before, now, rank + 1);
    KeptSigs(t, c, before, now, rank + 1, i);
    KeptSigs(t, c, now, mid, rank, i);
    KeptTrans(t, c, before, now, mid, rank + 1, rank + 1) by { KeptMore(t, c, now, mid, rank, rank + 1); }
    forall x | x in done
      ensures IsOption(mid, x) && mid[x] == now[x] && OptionSig(t, mid, x) == StateSig(t, mid, i)
    {
      KeptSigs(t, c, now, mid, rank, x);
    }
    KeptKinds(t, c, now, mid, rank);
    assert forall j | 0 <= j < |done| :: done[j] in done;
    LeadsStable(now, mid, i, done);
    var p := done[|done| - 1];
    var y := now[p].next;
    ScanNext(t, c, text, before, now, live, i, all, done);
    LiveChain(t, c, text, now, live, y);
    forall x | x in ChainOf(now, y)
      ensures mid[x] == now[x]
    {
      KeptSigs(t, c, now, mid, rank, x);
    }
    ChainKept(now, mid, y);
  }

  lemma KeptKinds(t: Tables, c: Certificate, a: Cells, b: Cells, rank: nat)
    requires Kept(t, c, a, b, rank)
    ensures |a| == |b| && SameFrame(a, b) && forall x | IsOption(a, x) :: IsOption(b, x)
  {
    forall x | IsOption(a, x)
      ensures IsOption(b, x)
    {
      assert CellFrame(a[x], b[x]);
    }
  }

  /** Taking an option out of a chain. */
  lemma Unlink(t: Tables, c: Certificate, text: seq<nat>, cells: Cells, live: set<Ref>, p: Ref)
    requires Loose(t, c, text, cells, live) && p in live && IsOption(cells, p) && cells[p].next in live
    requires IsOption(cells, cells[p].next)
    ensures var after := cells[p := cells[p].(next := cells[cells[p].next].next)];
      Loose(t, c, text, after, live) && SameFrame(cells, after)
  {
    hide Stems, OptionSig, StateSig, OptionFits, HeadOk;
    var y := cells[p].next;
    LiveFits(t, c, text, cells, live, p);
    LiveFits(t, c, text, cells, live, y);
    var n := cells[y].next;
    var after := cells[p := cells[p].(next := n)];
    SigFrame(t, c, cells, after, p);
    if n != NULL { SigFrame(t, c, cells, after, n); }
    assert LinkOk(t, after, live, p);
    hide LinkOk;
    LooseStays(t, c, text, cells, after, live);
  }

  lemma ScanUnlinked(t: Tables, c: Certificate, text: seq<nat>, before: Cells, mid: Cells, after: Cells, live: set<Ref>,
                     i: Ref, all: seq<Ref>, done: seq<Ref>)
    requires Loose(t, c, text, mid, live) && Scan(t, c, before, mid, live, i, all, done)
    requires mid[done[|done| - 1]].next != NULL
    requires var p := done[|done| - 1]; var y := mid[p].next;
      && 0 <= y < p && IsOption(mid, y) && after == mid[p := mid[p].(next := mid[y].next)]
      && Duplicate(t, before, done, y)
    requires SameFrame(mid, after)
    ensures Scan(t, c, before, after, live, i, all, done)
  {
    hide Loose, Stems, OptionSig, StateSig, OptionFits, Kept, Leads, Duplicate, RankOf, LinkOk, ChainOf;
    var rank := RankAt(t, c, before, i);
    ScanNext(t, c, text, before, mid, live, i, all, done);
    var p := done[|done| - 1];
    assert p in done;
    var y := mid[p].next;
    KeptSigs(t, c, before, mid, rank + 1, i);
    assert RankAt(t, c, mid, p) == rank;
    KeptOne(t, c, mid, after, p, rank + 1);
    KeptTrans(t, c, before, mid, after, rank + 1, rank + 1);
    SigFrame(t, c, mid, after, i);
    forall x | x in done
      ensures IsOption(after, x) && OptionSig(t, after, x) == StateSig(t, after, i)
    {
      SigFrame(t, c, mid, after, x);
    }
    var n := mid[y].next;
    ChainBelow(mid, n);
    ChainKept(mid, after, n);
    UnlinkLeads(t, c, text, mid, after, live, i, done);
  }

  lemma KeptOne(t: Tables, c: Certificate, a: Cells, b: Cells, p: Ref, rank: nat)
    requires SameFrame(a, b) && IsOption(a, p) && RankAt(t, c, a, p) < rank
    requires forall x | 0 <= x < |a| && x != p :: b[x] == a[x]
    ensures Kept(t, c, a, b, rank)
  {
    hide RankAt;
  }

  lemma ChainBelow(cells: Cells, k: Ref)
    ensures forall x | x in ChainOf(cells, k) :: x <= k
  {
    ChainDecreases(cells, k);
  }

  lemma {:induction false} LeadsDecrease(t: Tables, c: Certificate, text: seq<nat>, cells: Cells, live: set<Ref>,
                                         i: Ref, done: seq<Ref>)
    requires Loose(t, c, text, cells, live) && Leads(cells, i, done) && forall x | x in done :: x in live
    ensures Decreasing(done)
    decreases |done|
  {
    hide Loose, Decreasing, LinkOk, OptionFits, Stems;
    if done != [] {
      LeadsStep(cells, i, done);
      var earlier := done[..|done| - 1];
      LeadsDecrease(t, c, text, cells, live, i, earlier);
      var k := done[|done| - 1];
      assert done == earlier + [k];
      if earlier != [] {
        var last := earlier[|earlier| - 1];
        assert last in done;
        LiveFits(t, c, text, cells, live, last);
        LinkDown(t, cells, live, last);
      }
      LastBelow(earlier, k);
    } else {
      NothingDecreases();
    }
  }

  lemma NothingDecreases()
    ensures Decreasing([])
  {
  }

  lemma LastBelow(earlier: seq<Ref>, k: Ref)
    requires Decreasing(earlier) && (earlier != [] ==> k < earlier[|earlier| - 1])
    ensures Decreasing(earlier + [k])
  {
    assert forall x | x in earlier :: k < x;
    DecreasingAppend(earlier, k);
  }

  lemma UnlinkLeads(t: Tables, c: Certificate, text: seq<nat>, mid: Cells, after: Cells, live: set<Ref>, i: Ref,
                    done: seq<Ref>)
    requires Loose(t, c, text, mid, live) && done != [] && Leads(mid, i, done)
    requires (forall x | x in done :: x in live && IsOption(mid, x))
    requires SameFrame(mid, after) && IsState(mid, i)
    requires forall x | 0 <= x < |mid| && x != done[|done| - 1] :: after[x] == mid[x]
    ensures Leads(after, i, done)
  {
    hide Loose, LinkOk, OptionFits, Stems, Leads;
    LeadsDecrease(t, c, text, mid, live, i, done);
    var p := done[|done| - 1];
    assert p in done;
    forall x | IsOption(mid, x)
      ensures IsOption(after, x)
    {
      assert CellFrame(mid[x], after[x]);
    }
    forall j | 0 <= j < |done| - 1
      ensures Link(mid, done[j]) == Link(after, done[j])
    {
      assert done[j] in done && p < done[j];
    }
    LeadsStable(mid, after, i, done);
  }

  /** `yyidenticalOptions`. */
  method IdenticalOptions(cells: array<Cell>, t: Tables, y0: Ref, y1: Ref, ghost c: Certificate, ghost text: seq<nat>)
    returns (same: bool)
    requires Stems(t, c, text, cells[..]) && OptionFits(t, c, cells[..], y0) && OptionFits(t, c, cells[..], y1)
    ensures same <==> Identical(t, cells[..], y0, y1)
  {
    hide Stems, OptionFits, OptionSig, StateSig, Steps, Climb;
    ghost var xs := cells[..];
    FitsOption(t, c, xs, y0);
    FitsOption(t, c, xs, y1);
    if cells[y0].rule != cells[y1].rule {
      return false;
    }
    var s0, s1, n := cells[y0].rhs, cells[y1].rhs, t.r2[cells[y0].rule];
    ghost var d: nat := 0;
    NoClimb(xs, s0);
    NoClimb(xs, s1);
    while n > 0
      invariant d + n == t.r2[cells[y0].rule]
      invariant s0 == Climb(xs, cells[y0].rhs, d) && s1 == Climb(xs, cells[y1].rhs, d)
      invariant forall e | 0 <= e < d :: SamePosn(xs, Climb(xs, cells[y0].rhs, e), Climb(xs, cells[y1].rhs, e))
    {
      RhsState(t, c, text, xs, y0, d);
      RhsState(t, c, text, xs, y1, d);
      if cells[s0].posn != cells[s1].posn {
        assert !SamePosn(xs, s0, s1);
        return false;
      }
      s0, s1, n := cells[s0].pred, cells[s1].pred, n - 1;
      d := d + 1;
    }
    return true;
  }

  lemma NoClimb(cells: Cells, i: Ref)
    ensures Climb(cells, i, 0) == i
  {
  }

  /** A step of the selection at state `i`: `kept` has been dealt with, the next option `y` is the same as the
      best one so far, is merged into it and then taken out of the chain. */
  ghost predicate DropsBy(t: Tables, w: Priorities, a: Cells, after: Cells, i: Ref, kept: seq<Ref>, b: nat, merge: bool,
                          y: Ref, rest: seq<Ref>, mid: Cells) {
    && IsState(a, i) && a[i].sem.Chain? && ChainOf(a, a[i].sem.first) == kept + [y] + rest
    && Clean(t, w, a, kept, b, merge) && SameOption(t, a, kept[b], y)
    && mid == SetsAgreed(t, a, kept[b], y)
    && var p := kept[|kept| - 1];
    && IsOption(mid, p) && IsOption(mid, y) && after == mid[p := mid[p].(next := mid[y].next)]
  }

  ghost predicate Drops(t: Tables, w: Priorities, a: Cells, after: Cells) {
    exists i, kept, b, merge, y, rest, mid :: DropsBy(t, w, a, after, i, kept, b, merge, y, rest, mid)
  }

  /** The arenas that the scan goes through: one step for every option that is dropped. */
  ghost predicate DropTrace(t: Tables, w: Priorities, before: Cells, now: Cells, dropped: nat, trace: seq<Cells>) {
    && |trace| == dropped + 1 && trace[0] == before && trace[dropped] == now
    && forall i: nat | i < dropped :: DropAt(t, w, trace, i)
  }

  ghost predicate DropAt(t: Tables, w: Priorities, trace: seq<Cells>, i: nat)
    requires i + 1 < |trace|
  {
    Drops(t, w, trace[i], trace[i + 1])
  }

  lemma DropMore(t: Tables, w: Priorities, before: Cells, now: Cells, dropped: nat, trace: seq<Cells>, next: Cells)
    requires DropTrace(t, w, before, now, dropped, trace) && Drops(t, w, now, next)
    ensures DropTrace(t, w, before, next, dropped + 1, trace + [next])
  {
    hide Drops;
    forall i: nat | i < dropped + 1
      ensures DropAt(t, w, trace + [next], i)
    {
      if i < dropped { assert DropAt(t, w, trace, i); }
    }
  }

  /** Dropping the next option of the scan is such a step. */
  lemma DropThis(t: Tables, w: Priorities, c: Certificate, text: seq<nat>, before: Cells, a: Cells, after: Cells,
                 live: set<Ref>, i: Ref, all: seq<Ref>, done: seq<Ref>, b: nat, merge: bool, mid: Cells)
    requires Loose(t, c, text, a, live) && Scan(t, c, before, a, live, i, all, done) && b < |done|
    requires a[done[|done| - 1]].next != NULL && Clean(t, w, before, done, b, merge)
    requires var p := done[|done| - 1]; var y := a[p].next;
      && SameOption(t, a, done[b], y) && mid == SetsAgreed(t, a, done[b], y)
      && IsOption(mid, p) && IsOption(mid, y) && after == mid[p := mid[p].(next := mid[y].next)]
    ensures Drops(t, w, a, after)
  {
    hide Loose, SameOption, SetsAgreed, Clean, ChainOf, Kept, RankAt, Leads, OptionSig, StateSig, Duplicate;
    ScanChain(t, c, text, before, a, live, i, all, done);
    ScanNext(t, c, text, before, a, live, i, all, done);
    KeptKinds(t, c, before, a, RankAt(t, c, before, i) + 1);
    CleanFrame(t, w, before, a, done, b, merge);
    var y := a[done[|done| - 1]].next;
    var rest := ChainOf(a, a[y].next);
    assert done + ([y] + rest) == done + [y] + rest;
    assert DropsBy(t, w, a, after, i, done, b, merge, y, rest, mid);
  }

  lemma CleanFrame(t: Tables, w: Priorities, a: Cells, after: Cells, done: seq<Ref>, b: nat, merge: bool)
    requires SameFrame(a, after) && Clean(t, w, a, done, b, merge)
    ensures Clean(t, w, after, done, b, merge)
  {
    hide SameFrame, ChoiceFrom;
    forall rest
      ensures ChoiceFrom(t, w, after, [done[0]], 0, false, done[1..] + rest) ==
        ChoiceFrom(t, w, after, done, b, merge, rest)
    {
      ChoiceFrame(t, w, a, after, [done[0]], 0, false, done[1..] + rest);
      ChoiceFrame(t, w, a, after, done, b, merge, rest);
    }
  }

  /** What the selection promises: the options that remain on the chain, all of them from the original
      chain, duplicates of which only have been dropped, and the choice among them. */
  ghost predicate Selected(t: Tables, w: Priorities, before: Cells, now: Cells, i: Ref, kept: seq<Ref>, b: nat,
                           best: Ref, merge: bool)
    requires IsState(before, i) && before[i].sem.Chain? && IsState(now, i) && now[i].sem.Chain?
  {
    var all := ChainOf(before, before[i].sem.first);
    && ChainOf(now, now[i].sem.first) == kept
    && (forall x | x in kept :: x in all)
    && (forall x | x in all :: x in kept || Duplicate(t, before, kept, x))
    && b < |kept| && kept[b] == best && Sorted(w, before, kept, b, merge)
    && ChoiceOf(t, w, before, i) == Chosen(kept, b, merge) && ChoiceOf(t, w, now, i) == Chosen(kept, b, merge)
  }

  lemma ScanDone(t: Tables, c: Certificate, before: Cells, now: Cells, live: set<Ref>, i: Ref, all: seq<Ref>,
                 done: seq<Ref>)
    requires Scan(t, c, before, now, live, i, all, done)
    ensures Kept(t, c, before, now, RankAt(t, c, before, i) + 1) && |now| == |before| && 0 <= i < |now|
    ensures now[i] == before[i]
    ensures IsState(now, i) && now[i].sem.Chain?
  {
  }

  /** What has been kept is live, and frames have not changed. */
  lemma ScanFits(t: Tables, c: Certificate, text: seq<nat>, before: Cells, now: Cells, live: set<Ref>, i: Ref,
                 all: seq<Ref>, done: seq<Ref>, x: Ref)
    requires Loose(t, c, text, now, live) && Scan(t, c, before, now, live, i, all, done) && x in done
    ensures x in live && OptionFits(t, c, now, x) && IsOption(now, x) && now[x].rule < |t.r2| && Stems(t, c, text, now)
    ensures OptionSig(t, now, x) == StateSig(t, now, i)
    ensures RankAt(t, c, now, x) == RankAt(t, c, before, i)
    ensures IsOption(before, x) && before[x].rule == now[x].rule
  {
    hide Loose, Stems, OptionSig, StateSig, OptionFits, Kept, Leads, Duplicate, RankOf, LinkOk, ChainOf;
    var rank := RankAt(t, c, before, i);
    LiveFits(t, c, text, now, live, x);
    FitsOption(t, c, now, x);
    KeptKinds(t, c, before, now, rank + 1);
    KeptSigs(t, c, before, now, rank + 1, i);
    SigFrame(t, c, before, now, x);
    assert CellFrame(before[x], now[x]);
  }

  /** An option that compares equal to one kept is a duplicate. */
  lemma ScanDuplicate(t: Tables, c: Certificate, text: seq<nat>, before: Cells, now: Cells, live: set<Ref>, i: Ref,
                      all: seq<Ref>, done: seq<Ref>, x: Ref, y: Ref)
    requires Loose(t, c, text, now, live) && Scan(t, c, before, now, live, i, all, done) && x in done
    requires IsOption(now, x) && IsOption(now, y) && now[x].rule < |t.r2| && Identical(t, now, x, y)
    ensures Duplicate(t, before, done, y)
  {
    hide Loose, Stems, OptionSig, StateSig, OptionFits, Kept, Leads, RankOf, LinkOk, ChainOf, Climb;
    KeptKinds(t, c, before, now, RankAt(t, c, before, i) + 1);
    assert CellFrame(before[x], now[x]) && CellFrame(before[y], now[y]);
    forall d | 0 <= d < t.r2[before[x].rule]
      ensures SamePosn(before, Climb(before, before[x].rhs, d), Climb(before, before[y].rhs, d))
    {
      ClimbFrame(before, now, before[x].rhs, d);
      ClimbFrame(before, now, before[y].rhs, d);
      var s0, s1 := Climb(now, now[x].rhs, d), Climb(now, now[y].rhs, d);
      assert SamePosn(now, s0, s1);
      assert CellFrame(before[s0], now[s0]) && CellFrame(before[s1], now[s1]);
    }
    assert SameOption(t, before, x, y);
  }

  lemma DropDown(t: Tables, c: Certificate, text: seq<nat>, before: Cells, mid: Cells, live: set<Ref>, i: Ref,
                 all: seq<Ref>, done: seq<Ref>)
    requires Loose(t, c, text, mid, live) && Scan(t, c, before, mid, live, i, all, done)
    requires mid[done[|done| - 1]].next != NULL
    ensures var p := done[|done| - 1]; var y := mid[p].next;
      && IsOption(mid, p) && IsOption(mid, y) && 0 <= y < p && mid[y].next < y
  {
    hide Loose, Scan;
    ScanNext(t, c, text, before, mid, live, i, all, done);
  }

  lemma SameFrameRule(t: Tables, c: Certificate, a: Cells, b: Cells, rank: nat, y: Ref)
    requires Kept(t, c, a, b, rank) && IsOption(b, y)
    ensures IsOption(a, y) && a[y].rule == b[y].rule
  {
    hide RankAt;
    assert CellFrame(a[y], b[y]);
  }

  /** Every option of the original chain has been kept, dropped, or is still to come. */
  ghost predicate Tally(now: Cells, all: seq<Ref>, done: seq<Ref>, dropped: nat) {
    && done != [] && IsOption(now, done[|done| - 1])
    && |done| + dropped + |ChainOf(now, now[done[|done| - 1]].next)| == |all|
  }

  lemma TallyStart(t: Tables, w: Priorities, c: Certificate, text: seq<nat>, cells: Cells, live: set<Ref>, i: Ref)
    requires Loose(t, c, text, cells, live) && IsState(cells, i) && cells[i].sem.Chain?
    ensures var k := cells[i].sem.first;
      Tally(cells, ChainOf(cells, k), [k], 0) && DropTrace(t, w, cells, cells, 0, [cells])
  {
    hide Loose, StateSig, OptionSig;
    HeadChain(t, c, text, cells, live, i);
    ChainedStep(cells, cells[i].sem.first);
  }

  lemma TallyEnd(now: Cells, all: seq<Ref>, done: seq<Ref>, dropped: nat)
    requires Tally(now, all, done, dropped) && now[done[|done| - 1]].next == NULL
    ensures |done| + dropped == |all|
  {
    NullChain(now);
  }

  lemma TallyKeep(now: Cells, all: seq<Ref>, done: seq<Ref>, dropped: nat)
    requires Tally(now, all, done, dropped)
    requires var y := now[done[|done| - 1]].next; IsOption(now, y) && ChainOf(now, y) == [y] + ChainOf(now, now[y].next)
    ensures Tally(now, all, done + [now[done[|done| - 1]].next], dropped)
  {
  }

  lemma TallyDrop(t: Tables, c: Certificate, text: seq<nat>, now: Cells, mid: Cells, after: Cells, live: set<Ref>,
                  all: seq<Ref>, done: seq<Ref>, dropped: nat, rank: nat, i: Ref)
    requires Tally(now, all, done, dropped) && Loose(t, c, text, now, live) && Kept(t, c, now, mid, rank)
    requires var p := done[|done| - 1]; var y := now[p].next;
      && y in live && IsOption(now, y) && now[y].next < y < p && ChainOf(now, y) == [y] + ChainOf(now, now[y].next)
      && RankAt(t, c, now, y) == rank && IsOption(mid, p) && mid[p] == now[p] && IsOption(mid, y)
      && after == mid[p := mid[p].(next := mid[y].next)]
    ensures Tally(after, all, done, dropped + 1)
    ensures IsOption(now, now[done[|done| - 1]].next)
    ensures ChainOf(after, after[done[|done| - 1]].next) == ChainOf(now, now[now[done[|done| - 1]].next].next)
  {
    hide Loose, Kept, Stems, ChainOf, OptionSig, StateSig, OptionFits, RankOf;
    var p := done[|done| - 1]; var y := now[p].next; var n := now[y].next;
    LiveChain(t, c, text, now, live, y);
    KeptKinds(t, c, now, mid, rank);
    forall x | x in ChainOf(now, n)
      ensures 0 <= x < |now| && mid[x] == now[x]
    {
      assert x in ChainOf(now, y);
      KeptSigs(t, c, now, mid, rank, x);
    }
    KeptSigs(t, c, now, mid, rank, y);
    ChainKept(now, mid, n);
    ChainBelow(mid, n);
    UpdateFrame(mid, p, mid[y].next);
    ChainKept(mid, after, n);
  }

  lemma UpdateFrame(cells: Cells, p: Ref, k: Ref)
    requires IsOption(cells, p)
    ensures SameFrame(cells, cells[p := cells[p].(next := k)])
  {
  }

  lemma PickFirst(t: Tables, w: Priorities, cells: Cells, best: Ref)
    requires IsOption(cells, best) && cells[best].rule < |t.r2| == |w.dprec| == |w.merger|
    ensures Sorted(w, cells, [best], 0, false)
  {
    assert [best][0] == best;
  }

  /** The choice after one more option has been kept. */
  lemma PickedRule(w: Priorities, cells: Cells, done: seq<Ref>, b: nat, merge: bool, y: Ref)
    requires Sorted(w, cells, done, b, merge) && IsOption(cells, y) && cells[y].rule < |w.dprec|
    requires b < |done| && IsOption(cells, done[b])
    ensures |w.dprec| == |w.merger| && cells[done[b]].rule < |w.dprec|
    ensures match Prefer(w, cells[done[b]].rule, cells[y].rule)
      case NoCombination => !CombinableAt(w, cells, done[b], y)
      case UserMerge => Sorted(w, cells, done + [y], b, true)
      case PreferFirst => Sorted(w, cells, done + [y], b, merge)
      case PreferSecond => Sorted(w, cells, done + [y], |done|, false)
  {
    hide Orderly, Combinable, Prefer;
    var rs := RulesOf(cells, done);
    PickNext(w, rs, b, merge, cells[y].rule);
    assert RulesOf(cells, done + [y]) == rs + [cells[y].rule];
  }

  lemma ChoiceStart(t: Tables, w: Priorities, c: Certificate, text: seq<nat>, cells: Cells, live: set<Ref>, i: Ref)
    requires Loose(t, c, text, cells, live) && IsState(cells, i) && cells[i].sem.Chain?
    ensures var k := cells[i].sem.first;
      IsOption(cells, k) && Clean(t, w, cells, [k], 0, false)
      && ChoiceFrom(t, w, cells, [k], 0, false, ChainOf(cells, cells[k].next)) == ChoiceOf(t, w, cells, i)
  {
    hide Loose, StateSig, OptionSig, Clean, ChoiceFrom, ChoiceOf;
    HeadChain(t, c, text, cells, live, i);
    ChainedStep(cells, cells[i].sem.first);
    CleanFirst(t, w, cells, i);
  }

  lemma SameMeans(t: Tables, w: Priorities, c: Certificate, before: Cells, now: Cells, rank: nat, x: Ref, y: Ref)
    requires Kept(t, c, before, now, rank) && IsOption(now, x) && IsOption(now, y) && now[x].rule < |t.r2|
    ensures Identical(t, now, x, y) <==> SameOption(t, before, x, y)
    ensures SameOption(t, now, x, y) <==> SameOption(t, before, x, y)
    ensures PreferAt(w, now, x, y) == PreferAt(w, before, x, y)
    ensures now[x].rule < |w.dprec| == |w.merger| && now[y].rule < |w.dprec| ==>
      PreferAt(w, before, x, y) == Prefer(w, now[x].rule, now[y].rule)
  {
    hide Identical, RankAt, Prefer;
    SameOptionFrame(t, w, before, now, x, y);
  }

  lemma ChoiceScanned(t: Tables, w: Priorities, c: Certificate, text: seq<nat>, before: Cells, now: Cells,
                      live: set<Ref>, i: Ref, all: seq<Ref>, done: seq<Ref>, b: nat, merge: bool)
    requires Loose(t, c, text, now, live) && Scan(t, c, before, now, live, i, all, done) && b < |done|
    requires Clean(t, w, before, done, b, merge)
    ensures IsState(now, i) && now[i].sem.Chain?
    ensures ChoiceOf(t, w, now, i) == ChoiceFrom(t, w, before, done, b, merge, ChainOf(now, now[done[|done| - 1]].next))
  {
    hide Loose, Clean, ChoiceFrom, ChoiceOf, RankAt, StateSig, OptionSig, ChainOf, Duplicate, Leads;
    assert done[|done| - 1] in done;
    ScanChain(t, c, text, before, now, live, i, all, done);
    ChoiceNow(t, w, before, now, i, done, b, merge, ChainOf(now, now[done[|done| - 1]].next));
  }

  lemma ChoiceDone(t: Tables, w: Priorities, before: Cells, now: Cells, done: seq<Ref>, b: nat, merge: bool, next: Ref)
    requires b < |done| && next == NULL
    ensures ChoiceFrom(t, w, before, done, b, merge, ChainOf(now, next)) == Chosen(done, b, merge)
  {
    NullChain(now);
  }

  lemma DropCount(t: Tables, w: Priorities, before: Cells, now: Cells, dropped: nat, trace: seq<Cells>)
    requires DropTrace(t, w, before, now, dropped, trace)
    ensures trace != [] && dropped == |trace| - 1
  {
  }

  /** The arena after the selection, from where `done` has been dealt with: the options that are the same as the best
      one so far are merged into it and taken out of the chain, until there is no choice or no option left. */
  ghost function Narrowing(t: Tables, w: Priorities, a: Cells, done: seq<Ref>, b: nat): Cells
    requires b < |done|
    decreases Link(a, done[|done| - 1]) + 1
  {
    var p := done[|done| - 1];
    var y := Link(a, p);
    if !IsOption(a, p) || !IsOption(a, y) || a[y].next >= y then a
    else if SameOption(t, a, done[b], y) then
      var mid := SetsAgreed(t, a, done[b], y);
      if !IsOption(mid, p) || !IsOption(mid, y) || mid[y].next >= y then mid
      else Narrowing(t, w, mid[p := mid[p].(next := mid[y].next)], done, b)
    else match PreferAt(w, a, done[b], y)
      case NoCombination => a
      case PreferSecond => Narrowing(t, w, a, done + [y], |done|)
      case _ => Narrowing(t, w, a, done + [y], b)
  }

  ghost function Narrowed(t: Tables, w: Priorities, a: Cells, i: Ref): Cells {
    if IsState(a, i) && a[i].sem.Chain? then Narrowing(t, w, a, [a[i].sem.first], 0) else a
  }

  lemma NarrowStep(t: Tables, w: Priorities, a: Cells, done: seq<Ref>, b: nat, y: Ref)
    requires b < |done| && IsOption(a, done[|done| - 1]) && a[done[|done| - 1]].next == y
    requires IsOption(a, y) && a[y].next < y
    ensures SameOption(t, a, done[b], y) ==>
      var p := done[|done| - 1]; var mid := SetsAgreed(t, a, done[b], y);
      IsOption(mid, p) && IsOption(mid, y) && mid[y].next < y ==>
        Narrowing(t, w, a, done, b) == Narrowing(t, w, mid[p := mid[p].(next := mid[y].next)], done, b)
    ensures !SameOption(t, a, done[b], y) ==>
      match PreferAt(w, a, done[b], y)
      case NoCombination => Narrowing(t, w, a, done, b) == a
      case PreferSecond => Narrowing(t, w, a, done, b) == Narrowing(t, w, a, done + [y], |done|)
      case _ => Narrowing(t, w, a, done, b) == Narrowing(t, w, a, done + [y], b)
  {
    hide SameOption, PreferAt, SetsAgreed;
  }

  lemma NarrowEnd(t: Tables, w: Priorities, a: Cells, done: seq<Ref>, b: nat)
    requires b < |done| && IsOption(a, done[|done| - 1]) && a[done[|done| - 1]].next == NULL
    ensures Narrowing(t, w, a, done, b) == a
  {
    hide SameOption, PreferAt, SetsAgreed;
  }

  /** The first half of `yyresolveValue`, up to the choice of an option: exactly the selection among the
      options that the state had, and among those that it has now. */
  method Choose(cells: array<Cell>, t: Tables, w: Priorities, i: Ref, ghost c: Certificate, ghost text: seq<nat>,
                ghost live: set<Ref>)
    returns (ambiguous: bool, best: Ref, merge: bool, ghost kept: seq<Ref>, ghost b: nat, ghost trace: seq<Cells>)
    requires Loose(t, c, text, cells[..], live) && !Cyclic(c.g) && IsState(cells[..], i) && cells[i].sem.Chain?
    requires |w.dprec| == |w.merger| == |t.r2|
    modifies cells
    ensures Loose(t, c, text, cells[..], live)
    ensures cells[..] == Narrowed(t, w, old(cells[..]), i)
    ensures Kept(t, c, old(cells[..]), cells[..], RankAt(t, c, old(cells[..]), i) + 1)
    ensures cells[i] == old(cells[i])
    ensures ambiguous <==> ChoiceOf(t, w, old(cells[..]), i).Clash?
    ensures ChoiceOf(t, w, cells[..], i) == ChoiceOf(t, w, old(cells[..]), i)
    ensures !ambiguous ==> Selected(t, w, old(cells[..]), cells[..], i, kept, b, best, merge)
    ensures trace != [] && DropTrace(t, w, old(cells[..]), cells[..], |trace| - 1, trace)
    ensures !ambiguous ==> |kept| + (|trace| - 1) == |ChainOf(old(cells[..]), old(cells[i]).sem.first)|
  {
    hide Loose, Stems, OptionSig, StateSig, OptionFits, Kept, Leads, Duplicate, RankAt, ChainOf, Scan, Picks, Cyclic,
      Identical, RulesOf, DropTrace, Drops, SetsAgreed, Clean, ChoiceFrom, ChoiceOf, SameOption, PreferAt, SameFrame,
      Narrowing;
    ghost var before := cells[..];
    ghost var all := ChainOf(before, before[i].sem.first);
    best, merge := cells[i].sem.first, false;
    var p := best;
    ghost var done := [best];
    b := 0;
    ScanStart(t, c, text, before, live, i);
    ScanFits(t, c, text, before, before, live, i, all, done, best);
    PickFirst(t, w, before, best);
    ChoiceStart(t, w, c, text, before, live, i);
    trace := [before];
    ghost var dropped: nat := 0;
    TallyStart(t, w, c, text, before, live, i);
    while true
      invariant |cells[..]| == |before| && done != [] && p == done[|done| - 1] && b < |done| && best == done[b]
      invariant Loose(t, c, text, cells[..], live) && Scan(t, c, before, cells[..], live, i, all, done)
      invariant Sorted(w, before, done, b, merge)
      invariant IsOption(cells[..], p)
      invariant DropTrace(t, w, before, cells[..], dropped, trace) && Tally(cells[..], all, done, dropped)
      invariant Clean(t, w, before, done, b, merge)
      invariant ChoiceFrom(t, w, before, done, b, merge, ChainOf(cells[..], cells[p].next)) == ChoiceOf(t, w, before, i)
      invariant Narrowing(t, w, before, [before[i].sem.first], 0) == Narrowing(t, w, cells[..], done, b)
      decreases Link(cells[..], p)
    {
      ghost var now := cells[..];
      if cells[p].next == NULL {
        ScanEnd(t, c, text, before, now, live, i, all, done);
        TallyEnd(now, all, done, dropped);
        NarrowEnd(t, w, now, done, b);
        break;
      }
      var y := cells[p].next;
      ScanNext(t, c, text, before, now, live, i, all, done);
      ScanFits(t, c, text, before, now, live, i, all, done, best);
      SameFrameRule(t, c, before, now, RankAt(t, c, before, i) + 1, y) by {
        ScanDone(t, c, before, now, live, i, all, done);
      }
      var same := IdenticalOptions(cells, t, best, y, c, text);
      SameMeans(t, w, c, before, now, RankAt(t, c, before, i) + 1, best, y) by {
        ScanDone(t, c, before, now, live, i, all, done);
      }
      NarrowStep(t, w, now, done, b, y);
      ChoiceStep(t, w, before, done, b, merge, y, ChainOf(now, now[y].next));
      if same {
        MergeOptionSets(cells, t, best, y, c, text, live);
        ghost var mid := cells[..];
        ScanDuplicate(t, c, text, before, now, live, i, all, done, best, y);
        ScanKept(t, c, text, before, now, mid, live, i, all, done);
        ScanDrop(t, c, text, before, now, mid, live, i, all, done);
        cells[p] := cells[p].(next := cells[y].next);
        assert cells[..] == mid[p := mid[p].(next := mid[y].next)];
        DropDown(t, c, text, before, mid, live, i, all, done);
        DropThis(t, w, c, text, before, now, cells[..], live, i, all, done, b, merge, mid);
        DropMore(t, w, before, now, dropped, trace, cells[..]);
        TallyDrop(t, c, text, now, mid, cells[..], live, all, done, dropped, RankAt(t, c, before, i), i);
        trace := trace + [cells[..]];
        dropped := dropped + 1;
      } else {
        ScanKeep(t, c, text, before, now, live, i, all, done);
        TallyKeep(now, all, done, dropped);
        FitsOption(t, c, now, y);
        PickedRule(w, before, done, b, merge, y);
        CleanKeep(t, w, before, done, b, merge, y);
        var preference := Prefer(w, cells[best].rule, cells[y].rule);
        match preference {
          case NoCombination =>
            ambiguous, kept := true, done;
            ChoiceScanned(t, w, c, text, before, now, live, i, all, done, b, merge);
            ScanDone(t, c, before, now, live, i, all, done);
            DropCount(t, w, before, now, dropped, trace);
            return;
          case UserMerge => merge := true;
          case PreferFirst =>
          case PreferSecond =>
            best, merge := y, false;
            b := |done|;
        }
        done := done + [y];
        p := y;
      }
    }
    ambiguous, kept := false, done;
    ChoiceScanned(t, w, c, text, before, cells[..], live, i, all, done, b, merge);
    ChoiceDone(t, w, before, cells[..], done, b, merge, cells[p].next);
    ScanDone(t, c, before, cells[..], live, i, all, done);
    DropCount(t, w, before, cells[..], dropped, trace);
  }
}
