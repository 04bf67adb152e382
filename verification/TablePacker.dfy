/** The packing of rows and columns into one table: `sort_actions`, `matching_state`, `pack_vector` and `pack_table`. */
module TablePacker {
  import opened LrTables
  import opened PackedTables

  /** Cells `table[i]`, `check[i]` and `conflict[i]` are in use together, or vacant together, and none above `high` is
      in use. */
  predicate InStep(table: seq<int>, check: seq<int>, conflict: seq<nat>, high: nat) {
    && |table| == |check| == |conflict|
    && (forall i | 0 <= i < |check| :: check[i] >= -1)
    && (forall i | 0 <= i < |table| :: table[i] == 0 <==> check[i] == -1)
    && (forall i | 0 <= i < |table| && table[i] == 0 :: conflict[i] == 0)
    && forall i | high < i < |table| :: table[i] == 0
  }

  /** Entry `k` of `v` lies at its place. */
  predicate Lies(table: seq<int>, check: seq<int>, conflict: seq<nat>, v: Vector, place: int, k: nat)
    requires IsVector(v) && k < |v.froms|
  {
    var i := place + v.froms[k];
    0 <= i < |table| && |table| == |check| == |conflict|
      && table[i] == v.tos[k] && check[i] == v.froms[k] && conflict[i] == v.conflicts[k]
  }

  /** All entries of `v` do. */
  predicate LiesAll(table: seq<int>, check: seq<int>, conflict: seq<nat>, v: Vector, place: int) {
    IsVector(v) && forall k: nat | k < |v.froms| :: Lies(table, check, conflict, v, place, k)
  }

  /** The vectors `vs` have got the places `places`: all their entries lie there, no cell is in use but for one of
      them, and only equal vectors share a place. */
  ghost predicate Packed(table: seq<int>, check: seq<int>, conflict: seq<nat>, vs: seq<Vector>, places: seq<int>) {
    && |vs| == |places| && |table| == |check| == |conflict|
    && (forall e: nat | e < |vs| :: LiesAll(table, check, conflict, vs[e], places[e]))
    && (forall i: nat | i < |check| :: Used(check, vs, places, i))
    && forall e: nat, f: nat | e < |vs| && f < |vs| && places[e] == places[f] :: vs[e] == vs[f]
  }

  ghost predicate Used(check: seq<int>, vs: seq<Vector>, places: seq<int>, i: nat)
    requires i < |check| && |vs| == |places|
  {
    check[i] >= 0 ==> exists e: nat :: e < |vs| && Covers(vs[e], places[e], i, check[i])
  }

  /** The arrays have grown. */
  predicate Grown(table: seq<int>, check: seq<int>, conflict: seq<nat>, table': seq<int>, check': seq<int>,
                  conflict': seq<nat>) {
    && |table| == |check| == |conflict| <= |table'| == |check'| == |conflict'|
    && table'[..|table|] == table && check'[..|check|] == check && conflict'[..|conflict|] == conflict
    && forall i | |table| <= i < |table'| :: table'[i] == 0 && check'[i] == -1 && conflict'[i] == 0
  }

  lemma LevelArrays(table: seq<int>, check: seq<int>, conflict: seq<nat>, high: nat)
    requires InStep(table, check, conflict, high)
    ensures |table| == |check| == |conflict|
  {
  }

  lemma Enlarged(table: seq<int>, check: seq<int>, conflict: seq<nat>, table': seq<int>, check': seq<int>,
                 conflict': seq<nat>, high: nat)
    requires InStep(table, check, conflict, high)
    requires |table'| == |check'| == |conflict'| >= |table| == |check| == |conflict|
    requires forall j | 0 <= j < |table| ::
      table'[j] == table[j] && check'[j] == check[j] && conflict'[j] == conflict[j]
    requires forall j | |table| <= j < |table'| :: table'[j] == 0 && check'[j] == -1 && conflict'[j] == 0
    ensures Grown(table, check, conflict, table', check', conflict') && InStep(table', check', conflict', high)
  {
    assert table'[..|table|] == table && check'[..|table|] == check && conflict'[..|table|] == conflict;
  }

  lemma GrownPacked(table: seq<int>, check: seq<int>, conflict: seq<nat>, table': seq<int>, check': seq<int>,
                    conflict': seq<nat>, vs: seq<Vector>, places: seq<int>)
    requires Packed(table, check, conflict, vs, places) && Grown(table, check, conflict, table', check', conflict')
    ensures Packed(table', check', conflict', vs, places)
  {
    forall e: nat | e < |vs|
      ensures LiesAll(table', check', conflict', vs[e], places[e])
    {
      assert LiesAll(table, check, conflict, vs[e], places[e]);
      forall k: nat | k < |vs[e].froms|
        ensures Lies(table', check', conflict', vs[e], places[e], k)
      {
        assert Lies(table, check, conflict, vs[e], places[e], k);
        var i := places[e] + vs[e].froms[k];
        assert table'[..|table|][i] == table[i] && check'[..|table|][i] == check[i];
        assert conflict'[..|table|][i] == conflict[i];
      }
    }
    forall i: nat | i < |check'|
      ensures Used(check', vs, places, i)
    {
      if i < |check| {
        assert check'[..|check|][i] == check[i];
        assert Used(check, vs, places, i);
      }
    }
  }

  /** The new vector `v` has been written to vacant cells. */
  ghost predicate Wrote(table: seq<int>, check: seq<int>, conflict: seq<nat>, table': seq<int>, check': seq<int>,
                        conflict': seq<nat>, v: Vector, place: int) {
    && |table'| == |check'| == |conflict'| == |table| == |check| == |conflict|
    && LiesAll(table', check', conflict', v, place)
    && forall i: nat | i < |table| :: WroteAt(table, check, conflict, table', check', conflict', v, place, i)
  }

  ghost predicate WroteAt(table: seq<int>, check: seq<int>, conflict: seq<nat>, table': seq<int>, check': seq<int>,
                          conflict': seq<nat>, v: Vector, place: int, i: nat)
    requires i < |table'| == |check'| == |conflict'| == |table| == |check| == |conflict|
  {
    if Covers(v, place, i, check'[i]) then table[i] == 0
    else table'[i] == table[i] && check'[i] == check[i] && conflict'[i] == conflict[i]
  }

  lemma PackedNext(table: seq<int>, check: seq<int>, conflict: seq<nat>, table': seq<int>, check': seq<int>,
                   conflict': seq<nat>, vs: seq<Vector>, places: seq<int>, v: Vector, place: int)
    requires Packed(table, check, conflict, vs, places)
    requires Wrote(table, check, conflict, table', check', conflict', v, place) && place !in places
    ensures Packed(table', check', conflict', vs + [v], places + [place])
  {
    var vs', places' := vs + [v], places + [place];
    forall e: nat | e < |vs'|
      ensures LiesAll(table', check', conflict', vs'[e], places'[e])
    {
      if e < |vs| {
        assert LiesAll(table, check, conflict, vs[e], places[e]);
        forall k: nat | k < |vs[e].froms|
          ensures Lies(table', check', conflict', vs[e], places[e], k)
        {
          assert Lies(table, check, conflict, vs[e], places[e], k);
          assert WroteAt(table, check, conflict, table', check', conflict', v, place, places[e] + vs[e].froms[k]);
        }
      }
    }
    forall i: nat | i < |check'|
      ensures Used(check', vs', places', i)
    {
      assert WroteAt(table, check, conflict, table', check', conflict', v, place, i);
      assert Used(check, vs, places, i);
      if check'[i] >= 0 {
        if Covers(v, place, i, check'[i]) {
          assert vs'[|vs|] == v && places'[|vs|] == place;
        } else {
          var e: nat :| e < |vs| && Covers(vs[e], places[e], i, check[i]);
          assert vs'[e] == vs[e] && places'[e] == places[e];
        }
      }
    }
    forall e: nat, f: nat | e < |vs'| && f < |vs'| && places'[e] == places'[f]
      ensures vs'[e] == vs'[f]
    {
      if e < |vs| { assert places'[e] in places; }
      if f < |vs| { assert places'[f] in places; }
    }
  }

  /** A vector that is equal to one packed before gets the same place. */
  lemma PackedAgain(table: seq<int>, check: seq<int>, conflict: seq<nat>, vs: seq<Vector>, places: seq<int>, e: nat)
    requires Packed(table, check, conflict, vs, places) && e < |vs|
    ensures Packed(table, check, conflict, vs + [vs[e]], places + [places[e]])
  {
    var vs', places' := vs + [vs[e]], places + [places[e]];
    forall i: nat | i < |check|
      ensures Used(check, vs', places', i)
    {
      assert Used(check, vs, places, i);
      if check[i] >= 0 {
        var f: nat :| f < |vs| && Covers(vs[f], places[f], i, check[i]);
        assert vs'[f] == vs[f] && places'[f] == places[f];
      }
    }
  }

  /** The tables under construction. */
  class Packer {
    var table: array<int>
    var check: array<int>
    var conflict: array<nat>      // conflict_table
    var lowzero: nat
    var high: nat

    ghost predicate Valid()
      reads this, table, check, conflict
    {
      && table != check && table.Length > 0 && high < table.Length && lowzero <= high + 1
      && InStep(table[..], check[..], conflict[..], high)
      && forall i | 0 <= i < lowzero && i < table.Length :: table[i] != 0
    }

    constructor (size: nat)
      requires size > 0
      ensures Valid() && table.Length == size && lowzero == high == 0 && fresh(table) && fresh(check) && fresh(conflict)
      ensures Packed(table[..], check[..], conflict[..], [], [])
    {
      table := new int[size](_ => 0);
      check := new int[size](_ => -1);
      conflict := new nat[size](_ => 0);
      lowzero, high := 0, 0;
    }

    /** `table_grow`. */
    method TableGrow(desired: nat)
      requires Valid()
      modifies this`table, this`check, this`conflict
      ensures Valid() && fresh(table) && fresh(check) && fresh(conflict) && desired < table.Length
      ensures Grown(old(table[..]), old(check[..]), old(conflict[..]), table[..], check[..], conflict[..])
    {
      hide InStep, Grown;
      LevelArrays(table[..], check[..], conflict[..], high);
      var oldSize, size := table.Length, table.Length;
      while size <= desired
        invariant size >= oldSize
        decreases desired - size
      {
        size := size * 2;
      }
      var table', check', conflict' := new int[size], new int[size], new nat[size];
      for i := 0 to size
        modifies table', check', conflict'
        invariant forall j | 0 <= j < i && j < oldSize ::
          table'[j] == table[j] && check'[j] == check[j] && conflict'[j] == conflict[j]
        invariant forall j | oldSize <= j < i :: table'[j] == 0 && check'[j] == -1 && conflict'[j] == 0
      {
        table'[i] := if i < oldSize then table[i] else 0;
        check'[i] := if i < oldSize then check[i] else -1;
        conflict'[i] := if i < oldSize then conflict[i] else 0;
      }
      Enlarged(table[..], check[..], conflict[..], table'[..], check'[..], conflict'[..], high);
      table, check, conflict := table', check', conflict';
    }

    /** The test of `pack_vector` at one place: all cells are vacant, growing the arrays where they end. */
    method Fits(v: Vector, j: int) returns (ok: bool)
      requires Valid() && IsVector(v) && v.froms != [] && j + v.froms[0] >= 0
      modifies this`table, this`check, this`conflict
      ensures Valid() && (table == old(table) || fresh(table)) && (check == old(check) || fresh(check))
      ensures conflict == old(conflict) || fresh(conflict)
      ensures Grown(old(table[..]), old(check[..]), old(conflict[..]), table[..], check[..], conflict[..])
      ensures j + v.froms[0] < table.Length
      ensures if ok then Vacant(table[..], v, j) else Taken(table[..], v, j)
    {
      for k := 0 to |v.froms|
        modifies this`table, this`check, this`conflict
        invariant Valid() && (table == old(table) || fresh(table)) && (check == old(check) || fresh(check))
        invariant conflict == old(conflict) || fresh(conflict)
        invariant Grown(old(table[..]), old(check[..]), old(conflict[..]), table[..], check[..], conflict[..])
        invariant k > 0 ==> j + v.froms[0] < table.Length
        invariant forall l: nat | l < k :: VacantAt(table[..], v, j, l)
      {
        assert v.froms[k] >= v.froms[0];
        var loc: nat := j + v.froms[k];
        if table.Length <= loc {
          ghost var before := table[..];
          TableGrow(loc);
          StillVacant(before, table[..], v, j, k);
        }
        if table[loc] != 0 {
          assert TakenAt(table[..], v, j, k);
          return false;
        }
      }
      ok := true;
    }

    /** The entries of `v` are written to their places. */
    method Write(v: Vector, j: int)
      requires Valid() && IsVector(v) && v.froms != [] && Vacant(table[..], v, j)
      modifies table, check, conflict, this`high
      ensures InStep(table[..], check[..], conflict[..], high) && high < table.Length && high >= old(high)
      ensures Wrote(old(table[..]), old(check[..]), old(conflict[..]), table[..], check[..], conflict[..], v, j)
    {
      ghost var T, C, K := table[..], check[..], conflict[..];
      for k := 0 to |v.froms|
        modifies table, check, conflict
        invariant forall l: nat | l < k :: Lies(table[..], check[..], conflict[..], v, j, l)
        invariant forall l: nat | k <= l < |v.froms| :: VacantAt(table[..], v, j, l)
        invariant forall i: nat | i < table.Length :: Writing(T, C, K, table[..], check[..], conflict[..], v, j, k, i)
      {
        assert VacantAt(table[..], v, j, k);
        var loc: nat := j + v.froms[k];
        ghost var t, c, f := table[..], check[..], conflict[..];
        table[loc] := v.tos[k];
        conflict[loc] := v.conflicts[k];
        check[loc] := v.froms[k];
        WriteNext(T, C, K, t, c, f, v, j, k, k + 1);
        assert table[..] == t[loc := v.tos[k]] && check[..] == c[loc := v.froms[k]];
        assert conflict[..] == f[loc := v.conflicts[k]];
      }
      WriteEnd(T, C, K, table[..], check[..], conflict[..], v, j, high);
      var last := j + v.froms[|v.froms| - 1];
      if last > high {
        high := last;
      }
    }

    /** `while (table[lowzero] != 0) lowzero++`; the result is false if that runs beyond the end of the array. */
    method FindZero() returns (ok: bool)
      requires table != check && high < table.Length && lowzero <= high + 1
      requires InStep(table[..], check[..], conflict[..], high)
      requires forall i | 0 <= i < lowzero && i < table.Length :: table[i] != 0
      modifies this`lowzero
      ensures Valid() && (!ok ==> Full(table[..]))
    {
      while lowzero < table.Length && table[lowzero] != 0
        invariant lowzero <= high + 1 && high < table.Length && table.Length > 0
        invariant InStep(table[..], check[..], conflict[..], high)
        invariant forall i | 0 <= i < lowzero && i < table.Length :: table[i] != 0
        decreases table.Length - lowzero
      {
        lowzero := lowzero + 1;
      }
      ok := lowzero < table.Length;
    }

    /** `pack_vector`: the first place from `lowzero` on where the vector fits and that no vector has. `places` are
        those given to the vectors `vs` before. The result is false if the search comes to the end of the arrays. */
    method PackVector(v: Vector, ghost vs: seq<Vector>, places: array<int>, n: nat) returns (ok: bool, j: int)
      requires Valid() && IsVector(v) && v.froms != [] && n <= places.Length && places != table && places != check
      requires forall e: nat | e < |vs| :: vs[e].froms != []
      requires Packed(table[..], check[..], conflict[..], vs, places[..n])
      modifies this, table, check, conflict
      ensures Valid() && places[..n] == old(places[..n])
      ensures (table == old(table) || fresh(table)) && (check == old(check) || fresh(check))
      ensures conflict == old(conflict) || fresh(conflict)
      ensures if ok then Packed(table[..], check[..], conflict[..], vs + [v], places[..n] + [j]) && j !in places[..n]
              else Full(table[..])
    {
      hide Packed, Wrote, Grown, Vacant, Taken, InStep, IsVector, Highest;
      ghost var given := places[..n];
      ghost var top: int := Highest(given, high);
      j := lowzero - v.froms[0];
      if j >= table.Length {
        return false, j;
      }
      while true
        invariant Valid() && lowzero - v.froms[0] <= j <= top + 1 && j < table.Length && high == old(high)
        invariant (table == old(table) || fresh(table)) && (check == old(check) || fresh(check))
        invariant conflict == old(conflict) || fresh(conflict)
        invariant places[..n] == given && Packed(table[..], check[..], conflict[..], vs, given)
        decreases top + 1 - j
      {
        ghost var T, C, K := table[..], check[..], conflict[..];
        ok := Fits(v, j);
        GrownPacked(T, C, K, table[..], check[..], conflict[..], vs, given);
        var k := 0;
        while ok && k < n
          invariant k <= n
          invariant if ok then Vacant(table[..], v, j) && j !in given[..k] else Taken(table[..], v, j) || j in given
        {
          if places[k] == j {
            assert given[k] in given;
            ok := false;
          }
          assert given[..k + 1] == given[..k] + [given[k]];
          k := k + 1;
        }
        assert ok ==> given[..k] == given;
        if ok {
          T, C, K := table[..], check[..], conflict[..];
          Write(v, j);
          StaysUsed(T, C, K, table[..], check[..], conflict[..], v, j);
          PackedNext(T, C, K, table[..], check[..], conflict[..], vs, given, v, j);
          ok := FindZero();
          return;
        }
        GoesOn(table[..], check[..], conflict[..], vs, given, v, j, high, top);
        j := j + 1;
        if j >= table.Length {
          return false, j;
        }
      }
    }
  }

  /** The last cell is in use. */
  predicate Full(table: seq<int>) {
    |table| > 0 && table[|table| - 1] != 0
  }

  /** A bound on the places given and on the cells in use. */
  function Highest(places: seq<int>, high: int): (top: int)
    ensures top >= high && forall e | 0 <= e < |places| :: places[e] <= top
  {
    if places == [] then high
    else
      var n := |places| - 1;
      var below := Highest(places[..n], high);
      if places[n] > below then places[n] else below
  }

  /** Where the search goes on, it has not come to its bound; and if it comes to the end of the arrays, they are
      full. */
  lemma GoesOn(table: seq<int>, check: seq<int>, conflict: seq<nat>, vs: seq<Vector>, places: seq<int>, v: Vector,
               j: int, high: nat, top: int)
    requires IsVector(v) && v.froms != [] && InStep(table, check, conflict, high)
    requires Packed(table, check, conflict, vs, places) && forall e: nat | e < |vs| :: vs[e].froms != []
    requires 0 <= j + v.froms[0] < |table| && (Taken(table, v, j) || j in places)
    requires top == Highest(places, high)
    ensures j <= top && (j + 1 >= |table| ==> Full(table))
  {
    if Taken(table, v, j) {
      var k: nat :| k < |v.froms| && TakenAt(table, v, j, k);
    } else {
      var e: nat :| e < |places| && places[e] == j;
      assert LiesAll(table, check, conflict, vs[e], places[e]);
      assert Lies(table, check, conflict, vs[e], places[e], 0);
    }
  }

  lemma StaysUsed(table: seq<int>, check: seq<int>, conflict: seq<nat>, table': seq<int>, check': seq<int>,
                  conflict': seq<nat>, v: Vector, place: int)
    requires Wrote(table, check, conflict, table', check', conflict', v, place)
    ensures |table'| == |table| && forall i | 0 <= i < |table| && table[i] != 0 :: table'[i] != 0
  {
    forall i: nat | i < |table| && table[i] != 0
      ensures table'[i] != 0
    {
      assert WroteAt(table, check, conflict, table', check', conflict', v, place, i);
    }
  }

  /** Cell `i` when the first `n` entries have been written. */
  ghost predicate Writing(T: seq<int>, C: seq<int>, K: seq<nat>, table: seq<int>, check: seq<int>, conflict: seq<nat>,
                          v: Vector, j: int, n: nat, i: nat)
  {
    && i < |table| == |check| == |conflict| == |T| == |C| == |K| && n <= |v.froms|
    && if i - j in v.froms[..n] then T[i] == 0 && check[i] == i - j
       else table[i] == T[i] && check[i] == C[i] && conflict[i] == K[i]
  }

  predicate VacantAt(table: seq<int>, v: Vector, j: int, k: nat)
    requires k < |v.froms|
  {
    0 <= j + v.froms[k] < |table| && table[j + v.froms[k]] == 0
  }

  lemma StillVacant(table: seq<int>, table': seq<int>, v: Vector, j: int, n: nat)
    requires |table| <= |table'| && table'[..|table|] == table && n <= |v.froms|
    requires forall l: nat | l < n :: VacantAt(table, v, j, l)
    ensures forall l: nat | l < n :: VacantAt(table', v, j, l)
  {
    forall l: nat | l < n
      ensures VacantAt(table', v, j, l)
    {
      assert VacantAt(table, v, j, l) && table'[..|table|][j + v.froms[l]] == table[j + v.froms[l]];
    }
  }

  /** One of its cells is in use. */
  ghost predicate Taken(table: seq<int>, v: Vector, j: int) {
    exists k: nat :: k < |v.froms| && TakenAt(table, v, j, k)
  }

  predicate TakenAt(table: seq<int>, v: Vector, j: int, k: nat)
    requires k < |v.froms|
  {
    0 <= j + v.froms[k] < |table| && table[j + v.froms[k]] != 0
  }

  /** All cells for `v` at place `j` are vacant. */
  predicate Vacant(table: seq<int>, v: Vector, j: int) {
    forall k: nat | k < |v.froms| :: VacantAt(table, v, j, k)
  }

  lemma WriteNext(T: seq<int>, C: seq<int>, K: seq<nat>, t: seq<int>, c: seq<int>, f: seq<nat>, v: Vector, j: int,
                  k: nat, n: nat)
    requires IsVector(v) && k < |v.froms| && VacantAt(t, v, j, k) && n == k + 1
    requires forall l: nat | l < k :: Lies(t, c, f, v, j, l)
    requires forall l: nat | k <= l < |v.froms| :: VacantAt(t, v, j, l)
    requires forall i: nat | i < |t| :: Writing(T, C, K, t, c, f, v, j, k, i)
    ensures |t| == |c| == |f| == |T| == |C| == |K|
    ensures var loc := j + v.froms[k];
      var t', c', f' := t[loc := v.tos[k]], c[loc := v.froms[k]], f[loc := v.conflicts[k]];
      && (forall l: nat | l < n :: Lies(t', c', f', v, j, l))
      && (forall l: nat | n <= l < |v.froms| :: VacantAt(t', v, j, l))
      && (forall i: nat | i < |t'| :: Writing(T, C, K, t', c', f', v, j, n, i))
  {
    var loc: nat := j + v.froms[k];
    assert Writing(T, C, K, t, c, f, v, j, k, loc);
    var t', c', f' := t[loc := v.tos[k]], c[loc := v.froms[k]], f[loc := v.conflicts[k]];
    forall l: nat | l < n
      ensures Lies(t', c', f', v, j, l)
    {
      if l < k { assert Lies(t, c, f, v, j, l) && v.froms[l] < v.froms[k]; }
    }
    forall l: nat | n <= l < |v.froms|
      ensures VacantAt(t', v, j, l)
    {
      assert VacantAt(t, v, j, l) && v.froms[k] < v.froms[l];
    }
    assert v.froms[..n] == v.froms[..k] + [v.froms[k]];
    forall i: nat | i < |t'|
      ensures Writing(T, C, K, t', c', f', v, j, n, i)
    {
      assert Writing(T, C, K, t, c, f, v, j, k, i);
    }
  }

  lemma WriteEnd(T: seq<int>, C: seq<int>, K: seq<nat>, t: seq<int>, c: seq<int>, f: seq<nat>, v: Vector, j: int,
                 high: nat)
    requires IsVector(v) && v.froms != [] && InStep(T, C, K, high)
    requires forall l: nat | l < |v.froms| :: Lies(t, c, f, v, j, l)
    requires |t| == |T| && forall i: nat | i < |t| :: Writing(T, C, K, t, c, f, v, j, |v.froms|, i)
    requires |t| > 0
    ensures Wrote(T, C, K, t, c, f, v, j)
    ensures var last := j + v.froms[|v.froms| - 1];
      0 <= last < |t| && InStep(t, c, f, if last > high then last else high)
  {
    assert v.froms[..|v.froms|] == v.froms;
    assert Writing(T, C, K, t, c, f, v, j, |v.froms|, 0);
    assert Lies(t, c, f, v, j, |v.froms| - 1);
    forall i: nat | i < |t|
      ensures WroteAt(T, C, K, t, c, f, v, j, i)
      ensures c[i] >= -1 && (t[i] == 0 <==> c[i] == -1) && (t[i] == 0 ==> f[i] == 0)
      ensures i > high && i > j + v.froms[|v.froms| - 1] ==> t[i] == 0
    {
      assert Writing(T, C, K, t, c, f, v, j, |v.froms|, i);
      if i - j in v.froms {
        var k: nat :| k < |v.froms| && v.froms[k] == i - j;
        assert Lies(t, c, f, v, j, k);
      }
    }
  }
}
