/** `pack_table` as a whole: the tables that come out hold exactly the rows and columns that went in. */
module TableOutput {
  import opened LrTables
  import opened PackedTables
  import opened TableOrder
  import opened TablePacker

  /** The displacement of a vector that has no entries, until it is renumbered. */
  const BASE_MINIMUM: int := ERROR

  /** The vectors in the order `order`. */
  function Taken(vs: seq<Vector>, order: seq<nat>): (taken: seq<Vector>)
    requires InRange(vs, order)
    ensures |taken| == |order| && forall e | 0 <= e < |order| :: taken[e] == vs[order[e]]
  {
    seq(|order|, e requires 0 <= e < |order| => vs[order[e]])
  }

  /** Vectors that are not empty have got their places. */
  ghost predicate Placed(vs: seq<Vector>, order: seq<nat>, places: seq<int>, base: seq<int>) {
    && |base| == |vs| && |places| == |order| && InRange(vs, order)
    && (forall e | 0 <= e < |order| :: base[order[e]] == places[e])
    && forall u: nat | u < |vs| && u !in order :: base[u] == BASE_MINIMUM
  }

  lemma PlacedNext(vs: seq<Vector>, order: seq<nat>, places: seq<int>, base: seq<int>, u: nat, place: int)
    requires Placed(vs, order, places, base) && u < |vs| && vs[u].froms != [] && u !in order
    ensures Placed(vs, order + [u], places + [place], base[u := place])
    ensures InRange(vs, order) && Taken(vs, order + [u]) == Taken(vs, order) + [vs[u]]
  {
    var order' := order + [u];
    assert forall e | 0 <= e < |order| :: order[e] in order && order'[e] == order[e];
    assert order'[|order|] == u;
  }

  /** Nothing but its number distinguishes a vector from its turn. */
  lemma Renumbered(table: seq<int>, check: seq<int>, conflict: seq<nat>, vs: seq<Vector>, order: seq<nat>,
                   places: seq<int>, base: seq<int>)
    requires Enumerates(vs, order, |vs|) && Placed(vs, order, places, base)
    requires Packed(table, check, conflict, Taken(vs, order), places)
    requires forall u: nat | u < |vs| :: Numbered(vs[u])
    ensures Packed(table, check, conflict, vs, base) && Based(vs, base)
  {
    hide IsVector, Sorted, Lies;
    var taken := Taken(vs, order);
    forall u: nat | u < |vs|
      ensures LiesAll(table, check, conflict, vs[u], base[u])
      ensures if vs[u].froms == [] then base[u] == BASE_MINIMUM else base[u] > BASE_MINIMUM
    {
      if vs[u].froms == [] {
        assert u !in order;
        EmptyLies(table, check, conflict, vs[u]);
      } else {
        var e: nat :| e < |order| && order[e] == u;
        assert LiesAll(table, check, conflict, taken[e], places[e]);
        AboveMinimum(table, check, conflict, vs[u], base[u]);
      }
    }
    forall i: nat | i < |check|
      ensures Used(check, vs, base, i)
    {
      assert Used(check, taken, places, i);
      if check[i] >= 0 {
        var e: nat :| e < |taken| && Covers(taken[e], places[e], i, check[i]);
        assert Covers(vs[order[e]], base[order[e]], i, check[i]);
      }
    }
    forall u: nat, v: nat | u < |vs| && v < |vs| && base[u] == base[v]
      ensures vs[u] == vs[v]
    {
      if vs[u].froms == [] {
        EmptyEqual(vs[u], vs[v]);
      } else {
        var e: nat :| e < |order| && order[e] == u;
        var f: nat :| f < |order| && order[f] == v;
        assert places[e] == places[f];
      }
    }
  }

  /** The numbers in a vector are those of an `int`, and nothing but an error is as low as its least one. */
  predicate Numbered(v: Vector) {
    IsVector(v) && forall k | 0 <= k < |v.froms| :: v.froms[k] < -ERROR
  }

  /** The empty vectors are those without a place. */
  predicate Based(vs: seq<Vector>, base: seq<int>) {
    && |base| == |vs|
    && forall u: nat | u < |vs| :: if vs[u].froms == [] then base[u] == BASE_MINIMUM else base[u] > BASE_MINIMUM
  }

  lemma EmptyLies(table: seq<int>, check: seq<int>, conflict: seq<nat>, v: Vector)
    requires Numbered(v) && v.froms == []
    ensures LiesAll(table, check, conflict, v, BASE_MINIMUM)
  {
  }

  lemma EmptyEqual(v: Vector, w: Vector)
    requires Numbered(v) && Numbered(w) && v.froms == [] == w.froms
    ensures v == w
  {
  }

  lemma AboveMinimum(table: seq<int>, check: seq<int>, conflict: seq<nat>, v: Vector, place: int)
    requires Numbered(v) && v.froms != [] && LiesAll(table, check, conflict, v, place)
    ensures place > BASE_MINIMUM
  {
    assert Lies(table, check, conflict, v, place, 0);
  }

  /** The first `i` entries of the order `all` have been packed. */
  ghost predicate Progress(p: Packer, vs: seq<Vector>, all: seq<nat>, places: seq<int>, base: seq<int>, i: nat)
    reads p, p.table, p.check, p.conflict
  {
    && p.Valid() && i <= |all| && InRange(vs, all[..i]) && Placed(vs, all[..i], places, base)
    && Packed(p.table[..], p.check[..], p.conflict[..], Taken(vs, all[..i]), places)
  }

  /** The body of the loop of `pack_table`. */
  method PackEntry(p: Packer, vs: seq<Vector>, nstates: nat, order: array<nat>, pos: array<int>, base: array<int>,
                   i: nat)
    returns (ok: bool)
    requires pos != p.table && pos != p.check && base != p.table && base != p.check && base != pos
    requires order != p.conflict && i < pos.Length <= order.Length && base.Length == |vs|
    requires Enumerates(vs, order[..pos.Length], |vs|) && forall u: nat | u < |vs| :: Numbered(vs[u])
    requires Progress(p, vs, order[..pos.Length], pos[..i], base[..], i)
    modifies p, p.table, p.check, p.conflict, pos, base
    ensures p.table == old(p.table) || fresh(p.table)
    ensures p.check == old(p.check) || fresh(p.check)
    ensures p.conflict == old(p.conflict) || fresh(p.conflict)
    ensures order[..] == old(order[..]) && p.Valid()
    ensures if ok then Progress(p, vs, order[..pos.Length], pos[..i + 1], base[..], i + 1) else Full(p.table[..])
  {
    hide Packed, Placed, Enumerates, Sorted, InStep, Numbered, IsVector, Full;
    ghost var all := order[..pos.Length];
    ghost var done, places := all[..i], pos[..i];
    EntryFacts(vs, all, i);
    assert order[i] == all[i];
    var found, prev := MatchingState(vs, nstates, order, pos.Length, i);
    var place;
    if found {
      place := base[order[prev]];
      assert order[prev] == all[prev];
      SharedPlace(p.table[..], p.check[..], p.conflict[..], vs, all, places, base[..], i, prev);
    } else {
      ok, place := p.PackVector(vs[order[i]], Taken(vs, done), pos, i);
      if !ok {
        return;
      }
    }
    PlacedNext(vs, done, places, base[..], all[i], place);
    pos[i] := place;
    base[order[i]] := place;
    assert pos[..i + 1] == places + [place] && all[..i + 1] == done + [all[i]];
    ok := true;
  }

  /** `pack_table` up to the renumbering; it fails only if the search for a place comes to the end of full arrays. */
  method PackTable(vs: seq<Vector>, nstates: nat, size: nat) returns (ok: bool, p: Packer, base: array<int>)
    requires size > 0 && forall u: nat | u < |vs| :: Numbered(vs[u])
    ensures fresh(p) && fresh(p.table) && fresh(p.check) && fresh(p.conflict) && fresh(base) && p.Valid()
    ensures base != p.table && base != p.check
    ensures if ok then Packed(p.table[..], p.check[..], p.conflict[..], vs, base[..]) && Based(vs, base[..])
            else Full(p.table[..])
  {
    hide Packed, Placed, Enumerates, Sorted, InStep, Numbered, IsVector, Full;
    p := new Packer(size);
    base := new int[|vs|](_ => BASE_MINIMUM);
    var order := new nat[|vs|](_ => 0);
    var nentries := SortActions(vs, order);
    var pos := new int[nentries](_ => 0);
    ghost var all := order[..nentries];
    NothingPlaced(vs, base[..]);
    for i := 0 to nentries
      invariant fresh(p.table) && fresh(p.check) && fresh(p.conflict)
      invariant base != p.table && base != p.check && pos != p.table && pos != p.check && base != pos
      invariant order != p.conflict && order[..nentries] == all
      invariant Progress(p, vs, all, pos[..i], base[..], i)
    {
      ghost var whole := order[..];
      ok := PackEntry(p, vs, nstates, order, pos, base, i);
      if !ok {
        return;
      }
      assert order[..nentries] == whole[..nentries];
    }
    assert all[..nentries] == all;
    Renumbered(p.table[..], p.check[..], p.conflict[..], vs, all, pos[..nentries], base[..]);
    ok := true;
  }

  lemma NothingPlaced(vs: seq<Vector>, base: seq<int>)
    requires |base| == |vs| && forall u | 0 <= u < |vs| :: base[u] == BASE_MINIMUM
    ensures Placed(vs, [], [], base)
  {
  }

  lemma EntryFacts(vs: seq<Vector>, all: seq<nat>, i: nat)
    requires Enumerates(vs, all, |vs|) && i < |all| && forall u: nat | u < |vs| :: Numbered(vs[u])
    ensures all[i] < |vs| && vs[all[i]].froms != [] && IsVector(vs[all[i]]) && all[i] !in all[..i]
    ensures InRange(vs, all) && InRange(vs, all[..i]) && forall e: nat | e < i :: Taken(vs, all[..i])[e].froms != []
    ensures forall v | v in vs :: IsVector(v)
  {
  }

  /** An equal vector is packed already, and its place is known. */
  lemma SharedPlace(table: seq<int>, check: seq<int>, conflict: seq<nat>, vs: seq<Vector>, all: seq<nat>,
                    places: seq<int>, base: seq<int>, i: nat, prev: int)
    requires 0 <= prev < i < |all| && InRange(vs, all) && vs[all[prev]] == vs[all[i]]
    requires Placed(vs, all[..i], places, base) && InRange(vs, all[..i])
    requires Packed(table, check, conflict, Taken(vs, all[..i]), places)
    ensures |base| == |vs| && all[prev] < |base|
    ensures Packed(table, check, conflict, Taken(vs, all[..i]) + [vs[all[i]]], places + [base[all[prev]]])
  {
    hide Packed;
    assert all[..i][prev] == all[prev];
    PackedFacts(table, check, conflict, Taken(vs, all[..i]), places);
    PackedAgain(table, check, conflict, Taken(vs, all[..i]), places, prev);
  }

  lemma PackedFacts(table: seq<int>, check: seq<int>, conflict: seq<nat>, vs: seq<Vector>, places: seq<int>)
    requires Packed(table, check, conflict, vs, places)
    ensures |places| == |vs|
  {
  }

  /** `table_ninf_remap`: the number `ninf` is replaced by the greatest negative one that is below all others. */
  method NinfRemap(tab: array<int>, size: nat, ninf: int) returns (res: int)
    requires size <= tab.Length
    modifies tab
    ensures res < 0 && forall i | 0 <= i < size && old(tab[i]) != ninf :: res < tab[i] == old(tab[i])
    ensures forall i | 0 <= i < size && old(tab[i]) == ninf :: tab[i] == res
    ensures forall i | size <= i < tab.Length :: tab[i] == old(tab[i])
  {
    res := 0;
    for i := 0 to size
      invariant res <= 0 && forall j | 0 <= j < i && tab[j] != ninf :: res <= tab[j]
    {
      if tab[i] < res && tab[i] != ninf {
        res := tab[i];
      }
    }
    res := res - 1;
    for i := 0 to size
      modifies tab
      invariant forall j | 0 <= j < i :: tab[j] == if old(tab[j]) == ninf then res else old(tab[j])
      invariant forall j | i <= j < tab.Length :: tab[j] == old(tab[j])
    {
      if tab[i] == ninf {
        tab[i] := res;
      }
    }
  }

  /** The tables as they are emitted; what they hold beside the packed vectors is that of `rest`. */
  method Emit(vs: seq<Vector>, rest: Tables, size: nat) returns (ok: bool, t: Tables, conflp: seq<nat>)
    requires size > 0 && (forall u: nat | u < |vs| :: Numbered(vs[u])) && |vs| == |rest.defact| + |rest.defgoto|
    ensures ok ==> Packs(t, conflp, vs)
    ensures ok ==> t.defact == rest.defact && t.defgoto == rest.defgoto && |t.pact| == |t.defact|
    ensures ok ==> |t.table| == |t.check| == |conflp| == t.last + 1 && t.tableNinf < 0
    ensures ok ==> t == rest.(pact := t.pact, pgoto := t.pgoto, table := t.table, check := t.check, last := t.last,
                             pactNinf := t.pactNinf, tableNinf := t.tableNinf)
  {
    var n := |rest.defact|;
    var p, base;
    ok, p, base := PackTable(vs, n, size);
    if !ok {
      return false, rest, [];
    }
    ghost var T, C, K, B := p.table[..], p.check[..], p.conflict[..], base[..];
    var baseNinf := NinfRemap(base, |vs|, BASE_MINIMUM);
    var tableNinf := NinfRemap(p.table, p.high + 1, ERROR);
    t := rest.(pact := base[..n], pgoto := base[n..], table := p.table[..p.high + 1], check := p.check[..p.high + 1],
      last := p.high, pactNinf := baseNinf, tableNinf := tableNinf);
    conflp := p.conflict[..p.high + 1];
    EmittedPacks(vs, t, conflp, T, C, K, B, p.high);
  }

  /** The tables are the arrays, renumbered. */
  predicate Renamed(t: Tables, conflp: seq<nat>, T: seq<int>, C: seq<int>, K: seq<nat>, B: seq<int>, high: nat) {
    && |T| == |C| == |K| && high < |T| && t.last == high && |t.table| == |t.check| == |conflp| == high + 1
    && t.check == C[..high + 1] && conflp == K[..high + 1]
    && (forall i | 0 <= i <= high ::
          if T[i] == ERROR then t.table[i] == t.tableNinf else t.tableNinf < t.table[i] == T[i])
    && |t.pact| + |t.pgoto| == |B|
    && forall u: nat | u < |B| ::
         if B[u] == BASE_MINIMUM then Base(t, u) == t.pactNinf else t.pactNinf < Base(t, u) == B[u]
  }

  lemma EmittedPacks(vs: seq<Vector>, t: Tables, conflp: seq<nat>, T: seq<int>, C: seq<int>, K: seq<nat>, B: seq<int>,
                     high: nat)
    requires Packed(T, C, K, vs, B) && Based(vs, B) && InStep(T, C, K, high) && Renamed(t, conflp, T, C, K, B, high)
    ensures Packs(t, conflp, vs)
  {
    forall u: nat | u < |vs|
      ensures IsVector(vs[u])
    {
      assert LiesAll(T, C, K, vs[u], B[u]);
    }
    forall u: nat, k: nat | u < |vs| && k < |vs[u].froms|
      ensures HoldsAt(t, conflp, vs[u], Base(t, u), k)
      ensures vs[u].tos[k] != ERROR ==> vs[u].tos[k] > t.tableNinf
    {
      assert LiesAll(T, C, K, vs[u], B[u]) && Lies(T, C, K, vs[u], B[u], k);
    }
    forall i: nat | i <= t.last
      ensures OwnedAt(t, vs, i)
    {
      assert Used(C, vs, B, i);
      if C[i] >= 0 {
        var u: nat :| u < |vs| && Covers(vs[u], B[u], i, C[i]);
        assert Covers(vs[u], Base(t, u), i, C[i]);
      }
    }
  }
}
