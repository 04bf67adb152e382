/** The recursion of `yyresolveValue`, `yyresolveAction` and `yyresolveStates` as functions on values. */
module GlrEvaluate {
  import opened Grammar
  import opened LrTables
  import opened GlrForest
  import opened GlrOptions
  import opened GlrResolve
  import opened GlrChoice
  import opened GlrTrace

  /** How a part of the resolution ends: with the values found, at a state without a preferred option, or not
      within the depth allowed. */
  datatype Evaluation = Known(cells: Cells) | NoChoice(cells: Cells) | TooDeep

  /** The arena in which the values are known, or where there is no choice. */
  function Ended(ok: bool, cells: Cells): Evaluation {
    if ok then Known(cells) else NoChoice(cells)
  }

  function Valued(cells: Cells, i: Ref, v: Tree): Cells {
    if IsState(cells, i) then cells[i := cells[i].(sem := Val(v))] else cells
  }

  /** The state loses its options. */
  function Emptied(cells: Cells, i: Ref): Cells {
    if IsState(cells, i) then cells[i := cells[i].(sem := Chain(NULL))] else cells
  }

  /** The free action of option `k`. */
  function ActionOf(t: Tables, cells: Cells, k: Ref): Tree {
    if IsOption(cells, k) && cells[k].rule < |t.r2| then
      Node(cells[k].rule, ValuesDown(cells, cells[k].rhs, t.r2[cells[k].rule]))
    else Leaf(0)
  }

  /** `yyresolveStates`: the top `n` states from `i` down get values, the lowest one first. */
  ghost function StatesOn(t: Tables, w: Priorities, merge: Merger, a: Cells, i: Ref, n: nat, depth: nat): Evaluation
    decreases depth, 0, n
  {
    if n == 0 || !IsState(a, i) then Known(a)
    else
      match StatesOn(t, w, merge, a, a[i].pred, n - 1, depth)
      case Known(b) => StateOn(t, w, merge, b, i, depth)
      case other => other
  }

  /** A state of a right-hand side, unless it has its value already. */
  ghost function StateOn(t: Tables, w: Priorities, merge: Merger, a: Cells, i: Ref, depth: nat): Evaluation
    decreases depth, 0, 0
  {
    if !IsState(a, i) || a[i].sem.Val? then Known(a)
    else if depth == 0 then TooDeep
    else ValueOn(t, w, merge, a, i, depth - 1)
  }

  /** `yyresolveAction`, up to the action itself. */
  ghost function ActionOn(t: Tables, w: Priorities, merge: Merger, a: Cells, k: Ref, depth: nat): Evaluation
    decreases depth, 1
  {
    if !IsOption(a, k) || a[k].rule >= |t.r2| then NoChoice(a)
    else StatesOn(t, w, merge, a, a[k].rhs, t.r2[a[k].rule], depth)
  }

  /** The loop of `yyresolveValue` over the options from `p` on: those of precedence `prec` are evaluated, and their
      values merged into `v`. */
  ghost function OthersOn(t: Tables, w: Priorities, merge: Merger, a: Cells, p: Ref, prec: nat, v: Tree, depth: nat)
    : (Evaluation, Tree)
    decreases depth, 2, p + 1
  {
    if !IsOption(a, p) || a[p].rule >= |w.dprec| || |w.merger| != |w.dprec| then (Known(a), v)
    else if w.dprec[a[p].rule] == prec then
      match ActionOn(t, w, merge, a, p, depth)
      case Known(b) =>
        var more := merge(w.merger[a[p].rule], v, ActionOf(t, b, p));
        if Link(b, p) < p then OthersOn(t, w, merge, b, Link(b, p), prec, more, depth) else (Known(b), more)
      case other => (other, v)
    else if a[p].next < p then OthersOn(t, w, merge, a, a[p].next, prec, v, depth)
    else (Known(a), v)
  }

  /** `yyresolveValue`: the selection, the actions of the options that it takes, and the merge of their values. */
  ghost function ValueOn(t: Tables, w: Priorities, merge: Merger, a: Cells, i: Ref, depth: nat): Evaluation
    decreases depth, 3
  {
    if !IsState(a, i) || !a[i].sem.Chain? then NoChoice(a)
    else
      match ChoiceOf(t, w, a, i)
      case Clash(_, _) => NoChoice(Narrowed(t, w, a, i))
      case Chosen(kept, b, m) =>
        if b >= |kept| then NoChoice(a) else ChosenOn(t, w, merge, Narrowed(t, w, a, i), i, kept[b], m, depth)
  }

  /** The evaluation of the option chosen, and of the others if they are to be merged. */
  ghost function ChosenOn(t: Tables, w: Priorities, merge: Merger, a: Cells, i: Ref, k: Ref, m: bool, depth: nat)
    : Evaluation
    decreases depth, 2
  {
    match ActionOn(t, w, merge, a, k, depth)
    case Known(b) =>
      var prec := if IsOption(b, k) && b[k].rule < |w.dprec| then w.dprec[b[k].rule] else 0;
      var (all, v) := if m then OthersOn(t, w, merge, b, Link(b, k), prec, ActionOf(t, b, k), depth)
                      else (Known(b), ActionOf(t, b, k));
      (match all
       case Known(c) => Known(Valued(c, i, v))
       case NoChoice(c) => NoChoice(Emptied(c, i))
       case TooDeep => TooDeep)
    case NoChoice(b) => NoChoice(Emptied(b, i))
    case TooDeep => TooDeep
  }

  lemma StatesStep(t: Tables, w: Priorities, merge: Merger, a: Cells, i: Ref, n: nat, depth: nat)
    requires IsState(a, i) && n > 0
    ensures var below := StatesOn(t, w, merge, a, a[i].pred, n - 1, depth);
      StatesOn(t, w, merge, a, i, n, depth) ==
        if below.Known? then StateOn(t, w, merge, below.cells, i, depth) else below
  {
    hide StateOn;
  }

  lemma OthersStep(t: Tables, w: Priorities, merge: Merger, a: Cells, p: Ref, prec: nat, v: Tree, depth: nat)
    requires IsOption(a, p) && a[p].rule < |w.dprec| == |w.merger| && a[p].next < p
    ensures w.dprec[a[p].rule] == prec ==>
      var e := ActionOn(t, w, merge, a, p, depth);
      if !e.Known? then OthersOn(t, w, merge, a, p, prec, v, depth) == (e, v)
      else Link(e.cells, p) < p ==>
        OthersOn(t, w, merge, a, p, prec, v, depth) ==
          OthersOn(t, w, merge, e.cells, Link(e.cells, p), prec,
                   merge(w.merger[a[p].rule], v, ActionOf(t, e.cells, p)), depth)
    ensures w.dprec[a[p].rule] != prec ==>
      OthersOn(t, w, merge, a, p, prec, v, depth) == OthersOn(t, w, merge, a, a[p].next, prec, v, depth)
  {
    hide ActionOn, ActionOf;
  }

  /** Where there is no choice, or one. */
  lemma ValueStep(t: Tables, w: Priorities, merge: Merger, a: Cells, i: Ref, depth: nat)
    requires IsState(a, i) && a[i].sem.Chain?
    ensures var choice := ChoiceOf(t, w, a, i);
      && (choice.Clash? ==> ValueOn(t, w, merge, a, i, depth) == NoChoice(Narrowed(t, w, a, i)))
      && (choice.Chosen? && choice.b < |choice.kept| ==>
          ValueOn(t, w, merge, a, i, depth) ==
          ChosenOn(t, w, merge, Narrowed(t, w, a, i), i, choice.kept[choice.b], choice.merge, depth))
  {
    hide ChosenOn, ChoiceOf, Narrowed;
  }

  /** The evaluation has come to `b` with the option chosen, and to `c` with all of them. */
  ghost predicate Evaluating(t: Tables, w: Priorities, merge: Merger, a: Cells, k: Ref, m: bool, depth: nat,
                             acting: Evaluation, ended: Evaluation, v: Tree) {
    && ActionOn(t, w, merge, a, k, depth) == acting
    && if acting.Known? then
         var b := acting.cells;
         && IsOption(b, k) && b[k].rule < |w.dprec|
         && (ended, v) ==
              if m then OthersOn(t, w, merge, b, b[k].next, w.dprec[b[k].rule], ActionOf(t, b, k), depth)
              else (Known(b), ActionOf(t, b, k))
       else ended == acting
  }

  lemma ChosenEnds(t: Tables, w: Priorities, merge: Merger, a: Cells, i: Ref, k: Ref, m: bool, depth: nat,
                   acting: Evaluation, ended: Evaluation, v: Tree)
    requires Evaluating(t, w, merge, a, k, m, depth, acting, ended, v)
    ensures ended.Known? ==> ChosenOn(t, w, merge, a, i, k, m, depth) == Known(Valued(ended.cells, i, v))
    ensures ended.NoChoice? ==> ChosenOn(t, w, merge, a, i, k, m, depth) == NoChoice(Emptied(ended.cells, i))
  {
    hide ActionOn, OthersOn, ActionOf, Valued, Emptied;
  }

  /** What comes out does not depend on the depth allowed, if it is enough. */
  lemma {:induction false} DeeperStates(t: Tables, w: Priorities, merge: Merger, a: Cells, i: Ref, n: nat, depth: nat,
                                        more: nat)
    requires depth <= more && !StatesOn(t, w, merge, a, i, n, depth).TooDeep?
    ensures StatesOn(t, w, merge, a, i, n, more) == StatesOn(t, w, merge, a, i, n, depth)
    decreases depth, 0, n
  {
    if n > 0 && IsState(a, i) {
      DeeperStates(t, w, merge, a, a[i].pred, n - 1, depth, more);
      var e := StatesOn(t, w, merge, a, a[i].pred, n - 1, depth);
      if e.Known? { DeeperState(t, w, merge, e.cells, i, depth, more); }
    }
  }

  lemma {:induction false} DeeperState(t: Tables, w: Priorities, merge: Merger, a: Cells, i: Ref, depth: nat, more: nat)
    requires depth <= more && !StateOn(t, w, merge, a, i, depth).TooDeep?
    ensures StateOn(t, w, merge, a, i, more) == StateOn(t, w, merge, a, i, depth)
    decreases depth, 0, 0
  {
    if IsState(a, i) && !a[i].sem.Val? { DeeperValue(t, w, merge, a, i, depth - 1, more - 1); }
  }

  lemma {:induction false} DeeperAction(t: Tables, w: Priorities, merge: Merger, a: Cells, k: Ref, depth: nat,
                                        more: nat)
    requires depth <= more && !ActionOn(t, w, merge, a, k, depth).TooDeep?
    ensures ActionOn(t, w, merge, a, k, more) == ActionOn(t, w, merge, a, k, depth)
    decreases depth, 1
  {
    hide StatesOn;
    if IsOption(a, k) && a[k].rule < |t.r2| {
      DeeperStates(t, w, merge, a, a[k].rhs, t.r2[a[k].rule], depth, more);
    }
  }

  lemma {:induction false} DeeperOthers(t: Tables, w: Priorities, merge: Merger, a: Cells, p: Ref, prec: nat, v: Tree,
                                        depth: nat, more: nat)
    requires depth <= more && !OthersOn(t, w, merge, a, p, prec, v, depth).0.TooDeep?
    ensures OthersOn(t, w, merge, a, p, prec, v, more) == OthersOn(t, w, merge, a, p, prec, v, depth)
    decreases depth, 2, p + 1
  {
    hide ActionOn, ActionOf;
    if IsOption(a, p) && a[p].rule < |w.dprec| == |w.merger| {
      if w.dprec[a[p].rule] == prec {
        DeeperAction(t, w, merge, a, p, depth, more);
        var e := ActionOn(t, w, merge, a, p, depth);
        if e.Known? && Link(e.cells, p) < p {
          var joint := merge(w.merger[a[p].rule], v, ActionOf(t, e.cells, p));
          DeeperOthers(t, w, merge, e.cells, Link(e.cells, p), prec, joint, depth, more);
        }
      } else if a[p].next < p {
        DeeperOthers(t, w, merge, a, a[p].next, prec, v, depth, more);
      }
    }
  }

  lemma {:induction false} DeeperChosen(t: Tables, w: Priorities, merge: Merger, a: Cells, i: Ref, k: Ref, m: bool,
                                        depth: nat, more: nat)
    requires depth <= more && !ChosenOn(t, w, merge, a, i, k, m, depth).TooDeep?
    ensures ChosenOn(t, w, merge, a, i, k, m, more) == ChosenOn(t, w, merge, a, i, k, m, depth)
    decreases depth, 2
  {
    hide ActionOn, ActionOf, OthersOn, Valued, Emptied;
    DeeperAction(t, w, merge, a, k, depth, more);
    var e := ActionOn(t, w, merge, a, k, depth);
    if e.Known? && m {
      var b := e.cells;
      var prec := if IsOption(b, k) && b[k].rule < |w.dprec| then w.dprec[b[k].rule] else 0;
      DeeperOthers(t, w, merge, b, Link(b, k), prec, ActionOf(t, b, k), depth, more);
    }
  }

  lemma {:induction false} DeeperValue(t: Tables, w: Priorities, merge: Merger, a: Cells, i: Ref, depth: nat, more: nat)
    requires depth <= more && !ValueOn(t, w, merge, a, i, depth).TooDeep?
    ensures ValueOn(t, w, merge, a, i, more) == ValueOn(t, w, merge, a, i, depth)
    decreases depth, 3
  {
    hide ChosenOn, ChoiceOf, Narrowed;
    if IsState(a, i) && a[i].sem.Chain? {
      var choice := ChoiceOf(t, w, a, i);
      if choice.Chosen? && choice.b < |choice.kept| {
        DeeperChosen(t, w, merge, Narrowed(t, w, a, i), i, choice.kept[choice.b], choice.merge, depth, more);
      }
    }
  }
}
