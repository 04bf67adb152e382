/** `bitsetv_transitive_closure` and its reflexive variant: a square bit matrix, closed row by row in
    place. */
module Closure {

  /** The bits of a matrix as a relation. */
  type Relation = seq<seq<bool>>

  predicate Square(r: Relation) {
    forall j | 0 <= j < |r| :: |r[j]| == |r|
  }

  predicate Related(r: Relation, j: nat, k: nat) {
    j < |r| && k < |r[j]| && r[j][k]
  }

  /** A non-empty path: at least two nodes, each related to the next. */
  predicate Walk(r: Relation, p: seq<nat>) {
    |p| >= 2 && forall x | 0 <= x < |p| - 1 :: Related(r, p[x], p[x + 1])
  }

  /** A path from `j` to `k` whose inner nodes are below `i`. */
  predicate Via(r: Relation, p: seq<nat>, j: nat, k: nat, i: nat) {
    && Walk(r, p) && p[0] == j && p[|p| - 1] == k
    && forall x | 0 < x < |p| - 1 :: p[x] < i
  }

  ghost predicate Reaches(r: Relation, j: nat, k: nat, i: nat) {
    exists p :: Via(r, p, j, k, i)
  }

  /** A non-empty path, whatever its inner nodes. */
  ghost predicate Connected(r: Relation, j: nat, k: nat) {
    exists p :: Walk(r, p) && p[0] == j && p[|p| - 1] == k
  }

  /** Joining two paths at node `i`. */
  lemma JoinAt(r: Relation, j: nat, k: nat, i: nat)
    requires Reaches(r, j, i, i) && Reaches(r, i, k, i)
    ensures Reaches(r, j, k, i + 1)
  {
    var p :| Via(r, p, j, i, i);
    var q :| Via(r, q, i, k, i);
    var w := p + q[1..];
    forall x | 0 <= x < |w| - 1
      ensures Related(r, w[x], w[x + 1])
    {
      if x < |p| - 1 {
        assert Related(r, p[x], p[x + 1]);
      } else {
        assert Related(r, q[x - |p| + 1], q[x - |p| + 2]);
      }
    }
    assert Via(r, w, j, k, i + 1);
  }

  lemma Slice(r: Relation, p: seq<nat>, a: nat, b: nat)
    requires Walk(r, p) && a < b < |p|
    ensures Walk(r, p[a..b + 1])
  {
    var q := p[a..b + 1];
    forall x | 0 <= x < |q| - 1
      ensures Related(r, q[x], q[x + 1])
    {
      assert Related(r, p[a + x], p[a + x + 1]);
    }
  }

  /** The part of a path up to the first inner occurrence of `i`. */
  lemma {:induction false} UpTo(r: Relation, p: seq<nat>, j: nat, k: nat, i: nat, x: nat)
    requires Via(r, p, j, k, i + 1) && 0 < x < |p| - 1 && p[x] == i
    ensures Reaches(r, j, i, i)
    decreases x
  {
    if y :| 0 < y < x && p[y] == i {
      UpTo(r, p, j, k, i, y);
    } else {
      Slice(r, p, 0, x);
      assert Via(r, p[0..x + 1], j, i, i);
    }
  }

  /** The part of a path from the last inner occurrence of `i` on. */
  lemma {:induction false} FromOn(r: Relation, p: seq<nat>, j: nat, k: nat, i: nat, x: nat)
    requires Via(r, p, j, k, i + 1) && 0 < x < |p| - 1 && p[x] == i
    ensures Reaches(r, i, k, i)
    decreases |p| - x
  {
    if y :| x < y < |p| - 1 && p[y] == i {
      FromOn(r, p, j, k, i, y);
    } else {
      Slice(r, p, x, |p| - 1);
      assert Via(r, p[x..|p| - 1 + 1], i, k, i);
    }
  }

  /** Allowing one more inner node. */
  lemma OneMore(r: Relation, j: nat, k: nat, i: nat)
    ensures Reaches(r, j, k, i + 1) <==> Reaches(r, j, k, i) || (Reaches(r, j, i, i) && Reaches(r, i, k, i))
  {
    if Reaches(r, j, k, i + 1) {
      var p :| Via(r, p, j, k, i + 1);
      if x :| 0 < x < |p| - 1 && p[x] == i {
        UpTo(r, p, j, k, i, x);
        FromOn(r, p, j, k, i, x);
      } else {
        assert Via(r, p, j, k, i);
      }
    }
    if Reaches(r, j, k, i) {
      var p :| Via(r, p, j, k, i);
      assert Via(r, p, j, k, i + 1);
    }
    if Reaches(r, j, i, i) && Reaches(r, i, k, i) { JoinAt(r, j, k, i); }
  }

  /** Without inner nodes a path is one step. */
  lemma NoInner(r: Relation, j: nat, k: nat)
    ensures Reaches(r, j, k, 0) <==> Related(r, j, k)
  {
    if Related(r, j, k) { assert Via(r, [j, k], j, k, 0); }
    if Reaches(r, j, k, 0) {
      var p :| Via(r, p, j, k, 0);
      assert |p| > 2 ==> p[1] < 0;
      assert Related(r, p[0], p[1]);
    }
  }

  /** All nodes of a path with a successor are below the size of the relation. */
  lemma AllInner(r: Relation, j: nat, k: nat)
    ensures Reaches(r, j, k, |r|) <==> Connected(r, j, k)
  {
    if Connected(r, j, k) {
      var p :| Walk(r, p) && p[0] == j && p[|p| - 1] == k;
      forall x | 0 < x < |p| - 1
        ensures p[x] < |r|
      {
        assert Related(r, p[x], p[x + 1]);
      }
      assert Via(r, p, j, k, |r|);
    }
    if Reaches(r, j, k, |r|) {
      var p :| Via(r, p, j, k, |r|);
    }
  }

  /** Bit `(j, k)` of the matrix says whether there is a path with inner nodes below `i`. */
  ghost predicate Holds(m: array2<bool>, r: Relation, j: nat, i: nat)
    requires j < m.Length0
    reads m
  {
    forall k: nat | k < m.Length1 :: m[j, k] <==> Reaches(r, j, k, i)
  }

  predicate Represents(m: array2<bool>, r: Relation)
    reads m
  {
    && m.Length0 == m.Length1 == |r| && Square(r)
    && forall j, k | 0 <= j < |r| && 0 <= k < |r| :: m[j, k] == r[j][k]
  }

  /** `bitset_or (bsetv[j], bsetv[j], bsetv[i])`. */
  method OrRow(m: array2<bool>, j: nat, i: nat)
    requires j < m.Length0 && i < m.Length0
    modifies m
    ensures forall x, k | 0 <= x < m.Length0 && 0 <= k < m.Length1 ::
      m[x, k] == (old(m[x, k]) || (x == j && old(m[i, k])))
  {
    for k := 0 to m.Length1
      invariant forall x, y | 0 <= x < m.Length0 && 0 <= y < m.Length1 ::
        m[x, y] == (old(m[x, y]) || (x == j && y < k && old(m[i, y])))
    {
      m[j, k] := m[j, k] || m[i, k];
    }
  }

  /** What one step of the inner loop makes of row `j`. */
  lemma RowClosed(r: Relation, i: nat, j: nat)
    ensures forall k: nat ::
      Reaches(r, j, k, i + 1) <==> Reaches(r, j, k, i) || (Reaches(r, j, i, i) && Reaches(r, i, k, i))
  {
    forall k: nat
      ensures Reaches(r, j, k, i + 1) <==> Reaches(r, j, k, i) || (Reaches(r, j, i, i) && Reaches(r, i, k, i))
    {
      OneMore(r, j, k, i);
    }
  }

  /** The body of the inner loop. */
  method CloseRow(m: array2<bool>, ghost r: Relation, i: nat, j: nat)
    requires i < m.Length0 == m.Length1 && j < m.Length0 && Holds(m, r, j, i) && Holds(m, r, i, i)
    modifies m
    ensures Holds(m, r, j, i + 1) && (i == j ==> Holds(m, r, j, i))
    ensures forall x, k | 0 <= x < m.Length0 && 0 <= k < m.Length1 && x != j :: m[x, k] == old(m[x, k])
  {
    hide Reaches;
    RowClosed(r, i, j);
    if m[j, i] {
      OrRow(m, j, i);
    }
  }

  /** `bitsetv_transitive_closure`: in the end a bit is set exactly if there is a non-empty path. */
  method TransitiveClosure(m: array2<bool>, ghost r: Relation)
    requires Represents(m, r)
    modifies m
    ensures forall j: nat, k: nat | j < |r| && k < |r| :: m[j, k] <==> Connected(r, j, k)
  {
    hide Reaches, Connected, Related;
    var n := m.Length0;
    forall j: nat, k: nat | j < n && k < n
      ensures m[j, k] <==> Reaches(r, j, k, 0)
    {
      NoInner(r, j, k);
      RelatedBit(r, j, k);
    }
    for i := 0 to n
      invariant forall j: nat, k: nat | j < n && k < n :: m[j, k] <==> Reaches(r, j, k, i)
    {
      ghost var next := i + 1;
      for j := 0 to n
        invariant forall x: nat, k: nat | x < j && k < n :: m[x, k] <==> Reaches(r, x, k, next)
        invariant forall x: nat, k: nat | j <= x < n && k < n :: m[x, k] <==> Reaches(r, x, k, i)
        invariant Holds(m, r, i, i)
      {
        CloseRow(m, r, i, j);
      }
    }
    forall j: nat, k: nat | j < |r| && k < |r|
      ensures m[j, k] <==> Connected(r, j, k)
    {
      AllInner(r, j, k);
    }
  }

  lemma RelatedBit(r: Relation, j: nat, k: nat)
    requires Square(r) && j < |r| && k < |r|
    ensures Related(r, j, k) == r[j][k]
  {
  }

  /** `bitsetv_reflexive_transitive_closure`. */
  method ReflexiveTransitiveClosure(m: array2<bool>, ghost r: Relation)
    requires Represents(m, r)
    modifies m
    ensures forall j: nat, k: nat | j < |r| && k < |r| :: m[j, k] <==> j == k || Connected(r, j, k)
  {
    hide Connected;
    TransitiveClosure(m, r);
    for i := 0 to m.Length0
      invariant forall j: nat, k: nat | j < |r| && k < |r| :: m[j, k] <==> (j == k && j < i) || Connected(r, j, k)
    {
      m[i, i] := true;
    }
  }
}
