/** Context-free grammars and parse trees.  A parse tree doubles as the free
    interpretation of the user's semantic actions: the value an arbitrary set of
    actions computes is a fold of the tree that the model keeps on the value stack. */
module Grammar {

  /** A production.  Symbols are numbered as Bison numbers them: tokens first. */
  datatype Rule = Rule(lhs: nat, rhs: seq<nat>)

  type Rules = seq<Rule>

  datatype Tree = Leaf(token: nat) | Node(rule: nat, kids: seq<Tree>)

  /** The symbol at the root; -1 for a node whose rule does not exist. */
  function Root(g: Rules, t: Tree): int {
    match t
    case Leaf(tok) => tok
    case Node(r, _) => if r < |g| then g[r].lhs else -1
  }

  /** Every inner node applies a rule (numbered from 1) to children carrying the symbols of the right-hand side. */
  predicate Derivation(g: Rules, t: Tree) {
    match t
    case Leaf(_) => true
    case Node(r, kids) =>
      && 0 < r < |g|
      && Derivations(g, kids)
      && Roots(g, kids, g[r].rhs)
  }

  predicate Derivations(g: Rules, ts: seq<Tree>) {
    forall i | 0 <= i < |ts| :: Derivation(g, ts[i])
  }

  predicate Roots(g: Rules, ts: seq<Tree>, symbols: seq<nat>) {
    |ts| == |symbols| && forall i | 0 <= i < |ts| :: Root(g, ts[i]) == symbols[i]
  }

  /** The tokens at the leaves, from left to right. */
  function Yield(t: Tree): seq<nat> {
    match t
    case Leaf(tok) => [tok]
    case Node(_, kids) => Yields(kids)
  }

  function Yields(ts: seq<Tree>): seq<nat> {
    if ts == [] then [] else Yields(ts[..|ts| - 1]) + Yield(ts[|ts| - 1])
  }

  lemma {:induction false} YieldsAppend(a: seq<Tree>, b: seq<Tree>)
    ensures Yields(a + b) == Yields(a) + Yields(b)
    decreases |b|
  {
    if b == [] {
      assert a + b == a;
    } else {
      var n := |b| - 1;
      assert (a + b)[..|a| + n] == a + b[..n];
      YieldsAppend(a, b[..n]);
    }
  }

  lemma {:induction false} YieldsSplit(ts: seq<Tree>, k: nat)
    requires k <= |ts|
    ensures Yields(ts) == Yields(ts[..k]) + Yields(ts[k..])
  {
    assert ts == ts[..k] + ts[k..];
    YieldsAppend(ts[..k], ts[k..]);
  }
}
