/** The order in which `pack_table` takes the vectors, and the search for one that is there already: `sort_actions` and
    `matching_state`. */
module TableOrder {
  import opened PackedTables

  function Width(v: Vector): int
    requires v.froms != []
  {
    var first: int, last: int := v.froms[0], v.froms[|v.froms| - 1];
    last - first + 1
  }

  /** `v` is wider than `w`, or as wide and has no fewer entries. */
  predicate Before(v: Vector, w: Vector)
    requires v.froms != [] && w.froms != []
  {
    Width(v) > Width(w) || (Width(v) == Width(w) && |v.froms| >= |w.froms|)
  }

  predicate InRange(vs: seq<Vector>, order: seq<nat>) {
    forall e | 0 <= e < |order| :: order[e] < |vs| && vs[order[e]].froms != []
  }

  predicate Sorted(vs: seq<Vector>, order: seq<nat>)
    requires InRange(vs, order)
  {
    forall e, f | 0 <= e < f < |order| :: Before(vs[order[e]], vs[order[f]])
  }

  /** `order` has the number of every vector below `n` that is not empty, and no number twice. */
  ghost predicate Enumerates(vs: seq<Vector>, order: seq<nat>, n: nat)
    requires n <= |vs|
  {
    && InRange(vs, order) && Sorted(vs, order)
    && (forall u: nat | u < n && vs[u].froms != [] :: u in order)
    && (forall u | u in order :: u < n)
    && forall e, f | 0 <= e < f < |order| :: order[e] != order[f]
  }

  /** `more` is `order` with `n` put in at `p`. */
  predicate Insertion(order: seq<nat>, more: seq<nat>, n: nat, p: nat) {
    && |more| == |order| + 1 && p <= |order| && more[p] == n
    && (forall e | 0 <= e < p :: more[e] == order[e])
    && forall e | p <= e < |order| :: more[e + 1] == order[e]
  }

  /** One vector more is put in its place. */
  lemma Inserted(vs: seq<Vector>, order: seq<nat>, more: seq<nat>, n: nat, p: nat)
    requires n < |vs| && vs[n].froms != [] && Enumerates(vs, order, n) && Insertion(order, more, n, p)
    requires forall e | 0 <= e < p :: Before(vs[order[e]], vs[n])
    requires forall e | p <= e < |order| :: Before(vs[n], vs[order[e]])
    ensures Enumerates(vs, more, n + 1)
  {
    hide Before;
    assert forall e | 0 <= e < |order| :: order[e] in order;
    InsertedElements(order, more, n, p);
    assert forall e | 0 <= e < |more| :: more[e] in more;
    assert forall u | u in more :: u < |vs| && vs[u].froms != [];
    assert InRange(vs, more);
    forall e, f | 0 <= e < f < |more|
      ensures Before(vs[more[e]], vs[more[f]]) && more[e] != more[f]
    {
      InsertedPair(vs, order, more, n, p, e, f);
    }
  }

  lemma InsertedElements(order: seq<nat>, more: seq<nat>, n: nat, p: nat)
    requires Insertion(order, more, n, p)
    ensures forall u :: u in more <==> u in order || u == n
  {
    assert forall e | 0 <= e < |order| :: order[e] == more[if e < p then e else e + 1];
    forall e | 0 <= e < |more|
      ensures more[e] in order || more[e] == n
    {
      if e > p { assert more[(e - 1) + 1] == order[e - 1]; }
    }
  }

  lemma InsertedPair(vs: seq<Vector>, order: seq<nat>, more: seq<nat>, n: nat, p: nat, e: nat, f: nat)
    requires n < |vs| && vs[n].froms != [] && Enumerates(vs, order, n) && Insertion(order, more, n, p)
    requires forall e | 0 <= e < p :: Before(vs[order[e]], vs[n])
    requires forall e | p <= e < |order| :: Before(vs[n], vs[order[e]])
    requires InRange(vs, more) && e < f < |more|
    ensures Before(vs[more[e]], vs[more[f]]) && more[e] != more[f]
  {
    hide Before;
    assert forall e | 0 <= e < |order| :: order[e] in order;
    if e > p { assert more[(e - 1) + 1] == order[e - 1]; }
    if f > p { assert more[(f - 1) + 1] == order[f - 1]; }
  }

  lemma NoneYet(vs: seq<Vector>)
    ensures Enumerates(vs, [], 0)
  {
  }

  lemma NotCounted(vs: seq<Vector>, order: seq<nat>, n: nat)
    requires n < |vs| && vs[n].froms == [] && Enumerates(vs, order, n)
    ensures Enumerates(vs, order, n + 1)
  {
  }

  /** `sort_actions`: the vectors that are not empty, widest first, the fullest of those first. */
  method SortActions(vs: seq<Vector>, order: array<nat>) returns (nentries: nat)
    requires order.Length == |vs|
    modifies order
    ensures nentries <= order.Length && Enumerates(vs, order[..nentries], |vs|)
  {
    hide Before, Width, Enumerates;
    nentries := 0;
    NoneYet(vs);
    for i := 0 to |vs|
      invariant nentries <= i && Enumerates(vs, order[..nentries], i)
    {
      ghost var before := order[..nentries];
      if vs[i].froms == [] {
        NotCounted(vs, before, i);
      } else {
        var j := FindPlace(vs, order, nentries, i);
        assert order[..nentries] == before;
        Insert(order, nentries, j, i);
        Inserted(vs, before, order[..nentries + 1], i, j);
        nentries := nentries + 1;
      }
    }
  }

  /** Its two loops that look for the place of vector `i`. */
  method FindPlace(vs: seq<Vector>, order: array<nat>, n: nat, i: nat) returns (p: nat)
    requires n <= order.Length && i < |vs| && vs[i].froms != [] && Enumerates(vs, order[..n], i)
    ensures p <= n
    ensures forall e | 0 <= e < p :: Before(vs[order[..n][e]], vs[i])
    ensures forall e | p <= e < n :: Before(vs[i], vs[order[..n][e]])
  {
    hide Width, Enumerates;
    ghost var s := order[..n];
    InOrder(vs, s, i);
    var w, t := Width(vs[i]), |vs[i].froms|;
    var j := n - 1;
    while j >= 0 && Width(vs[order[j]]) < w
      invariant -1 <= j < n
      invariant forall e | j < e < n :: Before(vs[i], vs[s[e]])
    {
      assert order[j] == s[j];
      j := j - 1;
    }
    assert j >= 0 ==> order[j] == s[j] && Width(vs[s[j]]) >= w;
    while j >= 0 && Width(vs[order[j]]) == w && |vs[order[j]].froms| < t
      invariant -1 <= j < n
      invariant forall e | j < e < n :: Before(vs[i], vs[s[e]])
      invariant j >= 0 ==> Width(vs[s[j]]) >= w
    {
      assert order[j] == s[j];
      if j > 0 { assert Before(vs[s[j - 1]], vs[s[j]]); }
      j := j - 1;
    }
    assert j >= 0 ==> order[j] == s[j] && Before(vs[s[j]], vs[i]);
    BeforeAll(vs, s, j, vs[i]);
    p := j + 1;
  }

  lemma InOrder(vs: seq<Vector>, order: seq<nat>, n: nat)
    requires n <= |vs| && Enumerates(vs, order, n)
    ensures InRange(vs, order) && Sorted(vs, order)
  {
  }

  lemma BeforeAll(vs: seq<Vector>, order: seq<nat>, j: int, v: Vector)
    requires InRange(vs, order) && Sorted(vs, order) && j < |order| && v.froms != []
    requires j >= 0 ==> Before(vs[order[j]], v)
    ensures forall e | 0 <= e <= j :: Before(vs[order[e]], v)
  {
    hide Width;
    forall e | 0 <= e <= j
      ensures Before(vs[order[e]], v)
    {
      if e < j { assert Before(vs[order[e]], vs[order[j]]); }
    }
  }

  /** Its loop that moves the others up, and the store. */
  method Insert(order: array<nat>, n: nat, p: nat, i: nat)
    requires p <= n < order.Length
    modifies order
    ensures Insertion(old(order[..n]), order[..n + 1], i, p)
  {
    var k := n;
    while k > p
      invariant p <= k <= n
      invariant forall e | 0 <= e < k :: order[e] == old(order[e])
      invariant forall e | k < e <= n :: order[e] == old(order[e - 1])
    {
      order[k] := order[k - 1];
      k := k - 1;
    }
    order[p] := i;
  }

  /** No conflicts are recorded in the row. */
  predicate Conflictless(v: Vector) {
    forall k | 0 <= k < |v.conflicts| :: v.conflicts[k] == 0
  }

  /** Vectors before one of another size in the order are of another size, too. */
  lemma Farther(vs: seq<Vector>, order: seq<nat>, e: nat, p: nat)
    requires InRange(vs, order) && Sorted(vs, order) && p < e < |order|
    requires Width(vs[order[p]]) != Width(vs[order[e]]) || |vs[order[p]].froms| != |vs[order[e]].froms|
    ensures forall f | 0 <= f <= p :: vs[order[f]] != vs[order[e]]
  {
    hide Width;
    assert Before(vs[order[p]], vs[order[e]]);
    forall f | 0 <= f <= p
      ensures vs[order[f]] != vs[order[e]]
    {
      if f < p { assert Before(vs[order[f]], vs[order[p]]); }
    }
  }

  /** Its comparison of a row without conflicts with another vector of the same size. */
  method Matches(v: Vector, w: Vector) returns (same: bool)
    requires IsVector(v) && IsVector(w) && Conflictless(v) && |v.froms| == |w.froms|
    ensures same <==> v == w
  {
    for k := 0 to |v.froms|
      invariant v.froms[..k] == w.froms[..k] && v.tos[..k] == w.tos[..k] && v.conflicts[..k] == w.conflicts[..k]
    {
      if w.tos[k] != v.tos[k] || w.froms[k] != v.froms[k] || w.conflicts[k] != 0 {
        return false;
      }
    }
    assert v.froms[..|v.froms|] == v.froms && w.froms[..|v.froms|] == w.froms;
    assert v.tos[..|v.froms|] == v.tos && w.tos[..|v.froms|] == w.tos;
    assert v.conflicts[..|v.froms|] == v.conflicts && w.conflicts[..|v.froms|] == w.conflicts;
    same := true;
  }

  /** `matching_state`: an equal vector that comes before in the order, for a state without conflicts; the sorting
      makes it safe to look no further than the first of another size. */
  method MatchingState(vs: seq<Vector>, nstates: nat, order: array<nat>, n: nat, e: nat)
    returns (found: bool, prev: int)
    requires e < n <= order.Length && Enumerates(vs, order[..n], |vs|) && forall v | v in vs :: IsVector(v)
    ensures found ==> 0 <= prev < e && vs[order[..n][prev]] == vs[order[..n][e]]
    ensures !found && order[..n][e] < nstates && Conflictless(vs[order[..n][e]]) ==>
      forall f | 0 <= f < e :: vs[order[..n][f]] != vs[order[..n][e]]
  {
    hide Width, IsVector, Before;
    ghost var s := order[..n];
    assert forall f | 0 <= f < n :: s[f] == order[f];
    var i := order[e];
    assert s[e] == i && vs[i] in vs;
    prev := -1;
    if nstates <= i {
      return false, prev;
    }
    var v := vs[i];
    for k := 0 to |v.conflicts|
      invariant forall l | 0 <= l < k :: v.conflicts[l] == 0
    {
      if v.conflicts[k] != 0 {
        return false, prev;
      }
    }
    prev := e - 1;
    while prev >= 0
      invariant -1 <= prev < e
      invariant forall f | prev < f < e :: vs[s[f]] != v
    {
      var w := vs[order[prev]];
      assert s[prev] == order[prev] && w in vs;
      if Width(w) != Width(v) || |w.froms| != |v.froms| {
        Farther(vs, s, e, prev);
        return false, prev;
      }
      found := Matches(v, w);
      if found {
        return;
      }
      prev := prev - 1;
    }
    found := false;
  }
}
