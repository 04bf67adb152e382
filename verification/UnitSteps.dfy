/** Derivations of one symbol from another: grafting, and a rank on the symbols of a grammar that is
    not cyclic. */
module UnitSteps {
  import opened Grammar

  /** The tree, whose leaves may be nonterminals, is a derivation of a symbol from itself. */
  predicate SelfDerivation(g: Rules, v: Tree) {
    v.Node? && Derivation(g, v) && Yield(v) == [g[v.rule].lhs]
  }

  ghost predicate Cyclic(g: Rules) {
    exists v :: SelfDerivation(g, v)
  }

  predicate UnitTree(g: Rules, a: nat, b: nat, v: Tree) {
    v.Node? && Derivation(g, v) && Root(g, v) == a && Yield(v) == [b]
  }

  /** `a` derives `b` alone in one or more steps. */
  ghost predicate Steps(g: Rules, a: nat, b: nat) {
    exists v :: UnitTree(g, a, b, v)
  }

  /** The one child whose yield is not empty. */
  lemma {:induction false} OnlyKid(kids: seq<Tree>, b: nat) returns (i: nat)
    requires Yields(kids) == [b]
    ensures i < |kids| && Yield(kids[i]) == [b] && Yields(kids[..i]) == [] && Yields(kids[i + 1..]) == []
    decreases |kids|
  {
    var n := |kids| - 1;
    var last := Yield(kids[n]);
    assert Yields(kids[..n]) + last == [b];
    assert |Yields(kids[..n])| + |last| == |[b]|;
    if |last| == 1 {
      i := n;
      assert Yields(kids[..n]) == [] && kids[n + 1..] == [];
    } else {
      assert last == [];
      i := OnlyKid(kids[..n], b);
      assert kids[..n][..i] == kids[..i];
      assert kids[i + 1..] == kids[..n][i + 1..] + [kids[n]];
      YieldsAppend(kids[..n][i + 1..], [kids[n]]);
      assert [kids[n]][..0] == [];
    }
  }

  /** A child may be replaced by another derivation from the same symbol. */
  lemma KidReplaced(g: Rules, r: nat, kids: seq<Tree>, i: nat, kid: Tree)
    requires Derivation(g, Node(r, kids)) && i < |kids| && Derivation(g, kid) && Root(g, kid) == Root(g, kids[i])
    ensures Derivation(g, Node(r, kids[i := kid]))
  {
  }

  lemma YieldsReplaced(kids: seq<Tree>, i: nat, kid: Tree)
    requires i < |kids| && Yields(kids[..i]) == [] && Yields(kids[i + 1..]) == []
    ensures Yields(kids[i := kid]) == Yield(kid)
  {
    var kids' := kids[i := kid];
    YieldsSplit(kids', i);
    YieldsSplit(kids'[i..], 1);
    assert kids'[..i] == kids[..i] && kids'[i..][1..] == kids[i + 1..] && kids'[i..][..1] == [kid];
    assert [kid][..0] == [];
    calc {
      Yields(kids');
      Yields(kids[..i]) + (Yields([kid]) + Yields(kids[i + 1..]));
      Yield(kid);
    }
  }

  /** Replacing the one leaf of a tree by another tree. */
  lemma {:induction false} Graft(g: Rules, v: Tree, b: nat, w: Tree) returns (u: Tree)
    requires Derivation(g, v) && Yield(v) == [b]
    requires Derivation(g, w) && Root(g, w) == b
    ensures Derivation(g, u) && Root(g, u) == Root(g, v) && Yield(u) == Yield(w)
    ensures v.Node? ==> u.Node?
    decreases v
  {
    hide Yields;
    match v
    case Leaf(_) => u := w;
    case Node(r, kids) =>
      var i := OnlyKid(kids, b);
      var kid := Graft(g, kids[i], b, w);
      u := Node(r, kids[i := kid]);
      KidReplaced(g, r, kids, i, kid);
      YieldsReplaced(kids, i, kid);
  }

  lemma StepsTransitive(g: Rules, a: nat, b: nat, d: nat)
    requires Steps(g, a, b) && Steps(g, b, d)
    ensures Steps(g, a, d)
  {
    var v :| UnitTree(g, a, b, v);
    var w :| UnitTree(g, b, d, w);
    var u := Graft(g, v, b, w);
    assert UnitTree(g, a, d, u);
  }

  /** The symbols below `n` that `a` derives alone. */
  ghost function Reach(g: Rules, a: nat, n: nat): set<nat> {
    set b: nat | b < n && Steps(g, a, b)
  }

  lemma ReachSize(g: Rules, a: nat, n: nat)
    ensures |Reach(g, a, n)| <= n
  {
    SubsetSize(Reach(g, a, n), n);
  }

  lemma {:induction false} SubsetSize(s: set<nat>, n: nat)
    requires forall b | b in s :: b < n
    ensures |s| <= n
    decreases n
  {
    if n > 0 {
      SubsetSize(s - {n - 1}, n - 1);
    } else {
      assert s == {};
    }
  }

  /** A step goes to a symbol that reaches strictly less. */
  lemma ReachShrinks(g: Rules, a: nat, b: nat, n: nat)
    requires !Cyclic(g) && Steps(g, a, b) && b < n
    ensures |Reach(g, b, n)| < |Reach(g, a, n)|
  {
    var below, above := Reach(g, b, n), Reach(g, a, n);
    forall d | d in below
      ensures d in above
    {
      StepsTransitive(g, a, b, d);
    }
    if b in below {
      var v :| UnitTree(g, b, b, v);
      assert SelfDerivation(g, v);
    }
    assert b in above && b !in below;
    ProperSubsetSize(below, above, b);
  }

  lemma ProperSubsetSize(s: set<nat>, u: set<nat>, x: nat)
    requires s <= u && x in u && x !in s
    ensures |s| < |u|
  {
    var rest := u - {x};
    assert s <= rest;
    SubsetOrder(s, rest);
  }

  lemma {:induction false} SubsetOrder(s: set<nat>, u: set<nat>)
    requires s <= u
    ensures |s| <= |u|
    decreases |s|
  {
    if s != {} {
      var x :| x in s;
      SubsetOrder(s - {x}, u - {x});
    }
  }
}
