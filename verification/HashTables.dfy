/** gnulib's hash table: bucket arrays updated in place, overflow nodes recycled through a free
    list, and a rehash that can be undone when memory runs out in the middle of it.

    Overflow nodes are interchangeable, so chains are sequences and the free list is its length. */
module HashTables {
  import opened HashSpec

  /** Requests number `from` to `to - 1` are all served. */
  predicate Served(serves: nat -> bool, from: nat, to: nat) {
    forall k | from <= k < to :: serves(k)
  }

  /** The memory allocator: request number `k` is served iff `serves(k)`. */
  class Allocator {
    const serves: nat -> bool
    var asked: nat
    ghost var granted: nat

    constructor (serves: nat -> bool)
      ensures this.serves == serves && asked == granted == 0
    {
      this.serves := serves;
      asked, granted := 0, 0;
    }

    method Malloc() returns (ok: bool)
      modifies this
      ensures asked == old(asked) + 1 && ok == serves(old(asked))
      ensures granted == old(granted) + (if ok then 1 else 0)
    {
      ok := serves(asked);
      asked := asked + 1;
      if ok {
        granted := granted + 1;
      }
    }
  }

  class HashTable {
    const h: Hasher
    const eq: Comparator
    var bucket: array<seq<nat>>
    var nUsed: nat
    var nEntries: nat
    var free: nat                  // length of free_entry_list

    /** What every function here may rely on, even in the middle of a rehash. */
    ghost predicate Good()
      reads this, bucket
    {
      InRange(h) && bucket.Length > 0 && Placed(h, bucket[..]) && nUsed == Used(bucket[..])
    }

    constructor (h: Hasher, eq: Comparator, n: nat, free: nat)
      requires InRange(h) && n > 0
      ensures Good() && this.h == h && this.eq == eq && this.free == free && nEntries == 0
      ensures fresh(bucket) && bucket[..] == seq(n, i => [])
      ensures Bag(bucket[..]) == multiset{} && Overflow(bucket[..]) == 0
    {
      this.h, this.eq, this.free, nUsed, nEntries := h, eq, free, 0, 0;
      bucket := new seq<nat>[n](_ => []);
      new;
      assert bucket[..] == seq(n, i => []);
      EmptyBuckets(bucket[..]);
    }

    /** `allocate_entry`. */
    method AllocateEntry(heap: Allocator) returns (ok: bool)
      modifies this`free, heap
      ensures old(heap.granted) <= heap.granted && old(heap.asked) <= heap.asked
      ensures heap.asked == old(heap.asked) ==> heap.granted == old(heap.granted)
      ensures ok ==> free + 1 == old(free) + (heap.granted - old(heap.granted))
      ensures !ok ==> old(free) == 0 == free && heap.granted == old(heap.granted)
      ensures if old(free) > 0 then ok && heap.asked == old(heap.asked) else heap.asked == old(heap.asked) + 1
      ensures ok <==> Served(heap.serves, old(heap.asked), heap.asked)
    {
      if free > 0 {
        free := free - 1;
        return true;
      }
      ok := heap.Malloc();
    }

    /** Move the node of an overflow entry into this table: relink it, or free it when the entry
        becomes a bucket head. */
    method Relink(x: nat)
      requires Good() && x != 0
      modifies this`nUsed, this`free, bucket
      ensures Good()
      ensures Bag(bucket[..]) == old(Bag(bucket[..])) + multiset{x}
      ensures Overflow(bucket[..]) + free == old(Overflow(bucket[..]) + free) + 1
    {
      var d := h(x, bucket.Length);
      ghost var bs := bucket[..];
      ChainOn(h, bs, x);
      hide Bag, Placed, Used, Overflow;
      if bucket[d] != [] {
        bucket[d] := [bucket[d][0], x] + bucket[d][1..];
      } else {
        bucket[d] := [x];
        nUsed := nUsed + 1;
        free := free + 1;
      }
      assert bucket[..] == bs[d := Chained(bs[d], x)];
    }

    /** Store an entry that has no node of its own; allocate one if its bucket is occupied. */
    method Store(x: nat, heap: Allocator) returns (ok: bool)
      requires Good() && x != 0
      modifies this`nUsed, this`free, bucket, heap
      ensures Good()
      ensures old(heap.granted) <= heap.granted && old(heap.asked) <= heap.asked
      ensures heap.asked == old(heap.asked) ==> heap.granted == old(heap.granted)
      ensures ok ==> Bag(bucket[..]) == old(Bag(bucket[..])) + multiset{x}
      ensures ok ==> bucket[h(x, bucket.Length)] == Chained(old(bucket[h(x, bucket.Length)]), x)
      ensures ok ==>
        Overflow(bucket[..]) + free == old(Overflow(bucket[..]) + free) + (heap.granted - old(heap.granted))
      ensures !ok ==>
        bucket[..] == old(bucket[..]) && nUsed == old(nUsed) && free == 0 && heap.granted == old(heap.granted)
      ensures !ok ==> heap.asked == old(heap.asked) + 1 && old(bucket[h(x, bucket.Length)]) != []
      ensures heap.asked ==
        old(heap.asked) + if old(bucket[h(x, bucket.Length)]) == [] || old(free) > 0 then 0 else 1
      ensures ok <==> Served(heap.serves, old(heap.asked), heap.asked)
    {
      var d := h(x, bucket.Length);
      ghost var bs := bucket[..];
      ChainOn(h, bs, x);
      hide Bag, Placed, Used, Overflow;
      if bucket[d] != [] {
        ok := AllocateEntry(heap);
        if !ok {
          return;
        }
        bucket[d] := [bucket[d][0], x] + bucket[d][1..];
      } else {
        bucket[d] := [x];
        nUsed := nUsed + 1;
        ok := true;
      }
      assert bucket[..] == bs[d := Chained(bs[d], x)];
    }
  }

  lemma {:induction false} EmptyBuckets(bs: seq<seq<nat>>)
    requires forall i | 0 <= i < |bs| :: bs[i] == []
    ensures Flat(bs) == [] && Overflow(bs) == 0 && Used(bs) == 0
    decreases |bs|
  {
    if bs != [] { EmptyBuckets(bs[..|bs| - 1]); }
  }

  ghost predicate Apart(dst: HashTable, src: HashTable)
    reads dst, src
  {
    dst != src && dst.bucket != src.bucket
  }

  ghost function Bags(dst: HashTable, src: HashTable): multiset<nat>
    reads dst, src, dst.bucket, src.bucket
  {
    Bag(dst.bucket[..]) + Bag(src.bucket[..])
  }

  /** All overflow nodes, those on the free list that the two tables share included. */
  ghost function Nodes(dst: HashTable, src: HashTable): nat
    reads dst, src, dst.bucket, src.bucket
  {
    Overflow(dst.bucket[..]) + Overflow(src.bucket[..]) + dst.free
  }

  lemma BagMoves(dst: multiset<nat>, src: multiset<nat>, src': multiset<nat>, moved: multiset<nat>, kept: multiset<nat>)
    requires src' + (moved + kept) == src + kept
    ensures (dst + moved) + src' == dst + src
  {
    forall x
      ensures ((dst + moved) + src')[x] == (dst + src)[x]
    {
      assert (src' + (moved + kept))[x] == (src + kept)[x];
    }
  }

  /** First half of the loop body of `transfer_entries`: the overflow of one bucket. */
  method MoveOverflow(dst: HashTable, src: HashTable, b: nat)
    requires Apart(dst, src) && dst.Good() && src.Good()
    requires b < src.bucket.Length && src.bucket[b] != []
    modifies dst`nUsed, dst`free, dst.bucket, src.bucket
    ensures dst.Good() && src.Good()
    ensures src.bucket[..] == old(src.bucket[..])[b := [old(src.bucket[b])[0]]]
    ensures Bags(dst, src) == old(Bags(dst, src)) && Nodes(dst, src) == old(Nodes(dst, src))
  {
    hide Bag, Placed, Used, Overflow, InRange;
    var chain := src.bucket[b];
    ghost var bs := src.bucket[..];
    ghost var bag, nodes := Bag(dst.bucket[..]), Overflow(dst.bucket[..]) + dst.free;
    Replace(bs, b, chain[..1]);
    BucketPlaced(src.h, bs, b);
    PlacedShrink(src.h, bs, b);
    for cursor := 1 to |chain|
      invariant dst.Good() && src.bucket[..] == bs
      invariant Bag(dst.bucket[..]) == bag + multiset(chain[1..cursor])
      invariant Overflow(dst.bucket[..]) + dst.free == nodes + cursor - 1
    {
      ChainGrows(chain, cursor, bag);
      dst.Relink(chain[cursor]);
    }
    src.bucket[b] := chain[..1];
    assert chain == chain[..1] + chain[1..|chain|];
    assert src.bucket[..] == bs[b := chain[..1]];
    assert chain[..1] == [chain[0]];
    BagMoves(bag, Bag(bs), Bag(src.bucket[..]), multiset(chain[1..]), multiset(chain[..1]));
  }

  lemma ChainGrows(chain: seq<nat>, cursor: nat, bag: multiset<nat>)
    requires 1 <= cursor < |chain|
    ensures chain[cursor] in chain
    ensures bag + multiset(chain[1..cursor + 1]) == bag + multiset(chain[1..cursor]) + multiset{chain[cursor]}
  {
    assert chain[1..cursor + 1] == chain[1..cursor] + [chain[cursor]];
  }

  lemma BucketPlaced(h: Hasher, bs: seq<seq<nat>>, b: nat)
    requires Placed(h, bs) && b < |bs|
    ensures PlacedIn(h, |bs|, b, bs[b])
  {
  }

  /** Dropping the overflow, or the whole, of a bucket leaves a table placed. */
  lemma PlacedShrink(h: Hasher, bs: seq<seq<nat>>, b: nat)
    requires Placed(h, bs) && b < |bs|
    ensures Placed(h, bs[b := []])
    ensures bs[b] != [] ==> Placed(h, bs[b := bs[b][..1]])
  {
    assert PlacedIn(h, |bs|, b, bs[b]);
  }

  /** Second half of the loop body: the head of one bucket, whose overflow is gone. */
  method MoveHead(dst: HashTable, src: HashTable, b: nat, heap: Allocator) returns (ok: bool)
    requires Apart(dst, src) && dst.Good() && src.Good()
    requires b < src.bucket.Length && |src.bucket[b]| == 1
    modifies dst`nUsed, dst`free, dst.bucket, src`nUsed, src.bucket, heap
    ensures dst.Good() && src.Good()
    ensures src.bucket[..] == if ok then old(src.bucket[..])[b := []] else old(src.bucket[..])
    ensures Bags(dst, src) == old(Bags(dst, src))
    ensures Nodes(dst, src) == old(Nodes(dst, src)) + (heap.granted - old(heap.granted))
    ensures old(heap.granted) <= heap.granted && old(heap.asked) <= heap.asked
    ensures heap.asked == old(heap.asked) ==> heap.granted == old(heap.granted)
    ensures !ok ==> dst.free == 0 && heap.asked == old(heap.asked) + 1
    ensures ok <==> Served(heap.serves, old(heap.asked), heap.asked)
    ensures var x := old(src.bucket[b])[0];
      var d := dst.h(x, dst.bucket.Length);
      && d < dst.bucket.Length
      && heap.asked == old(heap.asked) + if old(dst.bucket[d]) == [] || old(dst.free) > 0 then 0 else 1
    ensures old(src.nUsed) > 0 && src.nUsed == old(src.nUsed) - if ok then 1 else 0
  {
    hide Bag, Placed, Used, Overflow, InRange;
    var x := src.bucket[b][0];
    ghost var bs := src.bucket[..];
    Replace(bs, b, []);
    BucketPlaced(src.h, bs, b);
    PlacedShrink(src.h, bs, b);
    assert x in bs[b];
    HasherInRange(dst.h, x, dst.bucket.Length);
    ok := dst.Store(x, heap);
    if ok {
      src.bucket[b] := [];
      src.nUsed := src.nUsed - 1;
      assert src.bucket[..] == bs[b := []];
      assert multiset(bs[b]) == multiset{x} + multiset([]) by { assert bs[b] == [x]; }
      BagMoves(old(Bag(dst.bucket[..])), Bag(bs), Bag(src.bucket[..]), multiset{x}, multiset([]));
    }
  }

  lemma HasherInRange(h: Hasher, x: nat, n: nat)
    requires InRange(h) && n > 0
    ensures h(x, n) < n
  {
  }

  /** `src` holds bare heads only, and with `dst` it holds the entries of `whole`, a table of the
      size of `dst` that needs no more overflow nodes than there are. */
  ghost predicate Covers(whole: seq<seq<nat>>, dst: HashTable, src: HashTable)
    reads dst, src, dst.bucket, src.bucket
  {
    && |whole| == dst.bucket.Length && Placed(dst.h, whole)
    && Bags(dst, src) == Bag(whole)
    && Overflow(src.bucket[..]) == 0
    && Overflow(whole) <= Nodes(dst, src)
  }

  /** A covered transfer finds a free node whenever it needs one. */
  lemma CoveredHead(whole: seq<seq<nat>>, dst: HashTable, src: HashTable, b: nat)
    requires dst.Good() && Covers(whole, dst, src)
    requires b < src.bucket.Length && src.bucket[b] != []
    ensures var d := dst.h(src.bucket[b][0], dst.bucket.Length);
      d < dst.bucket.Length && (dst.bucket[d] == [] || dst.free > 0)
  {
    var x := src.bucket[b][0];
    InFlat(src.bucket[..], b, x);
    OneMoreFits(dst.h, dst.bucket[..], Bag(src.bucket[..]), whole, x);
  }

  lemma {:induction false} BareHeads(bs: seq<seq<nat>>)
    ensures Overflow(bs) == 0 <==> forall i | 0 <= i < |bs| :: |bs[i]| <= 1
    decreases |bs|
  {
    if bs != [] { BareHeads(bs[..|bs| - 1]); }
  }

  /** The loop body of `transfer_entries` for a bucket in use. */
  method MoveBucket(dst: HashTable, src: HashTable, b: nat, safe: bool, heap: Allocator, ghost whole: seq<seq<nat>>)
    returns (ok: bool)
    requires Apart(dst, src) && dst.Good() && src.Good()
    requires b < src.bucket.Length && src.bucket[b] != []
    modifies dst`nUsed, dst`free, dst.bucket, src`nUsed, src.bucket, heap
    ensures dst.Good() && src.Good()
    ensures Bags(dst, src) == old(Bags(dst, src))
    ensures Nodes(dst, src) == old(Nodes(dst, src)) + (heap.granted - old(heap.granted)) >= old(Nodes(dst, src))
    ensures heap.asked == old(heap.asked) ==> heap.granted == old(heap.granted)
    ensures heap.asked >= old(heap.asked) && (ok <==> Served(heap.serves, old(heap.asked), heap.asked))
    ensures safe ==> ok && heap.asked == old(heap.asked)
    ensures ok ==> src.bucket[..] == old(src.bucket[..])[b := if safe then [old(src.bucket[b])[0]] else []]
    ensures !ok ==> dst.free == 0 && heap.asked > old(heap.asked)
    ensures heap.asked + src.nUsed <= old(heap.asked + src.nUsed) + if ok then 0 else 1
    ensures heap.asked <= old(heap.asked + src.nUsed)
    ensures old(Covers(whole, dst, src)) && !safe ==> ok && heap.asked == old(heap.asked) && Covers(whole, dst, src)
  {
    hide Bag, Placed, Used, Overflow, InRange;
    ghost var covered, bs := Covers(whole, dst, src), src.bucket[..];
    BareHeads(src.bucket[..]);
    MoveOverflow(dst, src, b);
    BareHeads(src.bucket[..]);
    ok := true;
    if !safe {
      if covered { CoveredHead(whole, dst, src, b); }
      ok := MoveHead(dst, src, b, heap);
      assert bs[b := [bs[b][0]]][b := []] == bs[b := []];
      BareHeads(src.bucket[..]);
    }
  }

  /** `transfer_entries`. */
  method TransferEntries(dst: HashTable, src: HashTable, safe: bool, heap: Allocator, ghost whole: seq<seq<nat>>)
    returns (ok: bool)
    requires Apart(dst, src) && dst.Good() && src.Good()
    modifies dst`nUsed, dst`free, dst.bucket, src`nUsed, src.bucket, heap
    ensures dst.Good() && src.Good()
    ensures Bags(dst, src) == old(Bags(dst, src))
    ensures Nodes(dst, src) == old(Nodes(dst, src)) + (heap.granted - old(heap.granted)) >= old(Nodes(dst, src))
    ensures heap.asked == old(heap.asked) ==> heap.granted == old(heap.granted)
    ensures safe ==> ok && heap.asked == old(heap.asked) && Overflow(src.bucket[..]) == 0
    ensures ok && !safe ==> Bag(src.bucket[..]) == multiset{}
    ensures !ok ==> dst.free == 0 && heap.asked > old(heap.asked)
    ensures heap.asked <= old(heap.asked + src.nUsed)
    ensures heap.asked >= old(heap.asked) && (ok <==> Served(heap.serves, old(heap.asked), heap.asked))
    ensures old(Covers(whole, dst, src)) && !safe ==> ok && heap.asked == old(heap.asked)
  {
    hide Bag, Placed, Used, Overflow, InRange, Covers, Nodes, Bags, Served, dst.Good;
    ghost var covered := Covers(whole, dst, src);
    NothingAsked(heap.serves, heap.asked);
    for b := 0 to src.bucket.Length
      invariant dst.Good() && src.Good()
      invariant Bags(dst, src) == old(Bags(dst, src))
      invariant Nodes(dst, src) == old(Nodes(dst, src)) + (heap.granted - old(heap.granted)) >= old(Nodes(dst, src))
      invariant heap.asked >= old(heap.asked) && Served(heap.serves, old(heap.asked), heap.asked)
      invariant heap.asked == old(heap.asked) ==> heap.granted == old(heap.granted)
      invariant heap.asked + src.nUsed <= old(heap.asked + src.nUsed)
      invariant safe ==> heap.asked == old(heap.asked) && forall i | 0 <= i < b :: |src.bucket[..][i]| <= 1
      invariant !safe ==> forall i | 0 <= i < b :: src.bucket[..][i] == []
      invariant covered && !safe ==> heap.asked == old(heap.asked) && Covers(whole, dst, src)
    {
      if src.bucket[b] != [] {
        ghost var asked := heap.asked;
        ok := MoveBucket(dst, src, b, safe, heap, whole);
        AskedOn(heap.serves, old(heap.asked), asked, heap.asked);
        if !ok {
          return;
        }
      }
    }
    BareHeads(src.bucket[..]);
    if !safe { EmptyBuckets(src.bucket[..]); EmptyBag(src.bucket[..]); }
    return true;
  }

  lemma AllServed(serves: nat -> bool)
    ensures (forall k :: serves(k)) ==> forall a, b :: Served(serves, a, b)
  {
  }

  lemma NothingAsked(serves: nat -> bool, n: nat)
    ensures Served(serves, n, n)
  {
  }

  lemma AskedOn(serves: nat -> bool, a: nat, b: nat, c: nat)
    requires a <= b <= c && Served(serves, a, b)
    ensures Served(serves, a, c) <==> Served(serves, b, c)
  {
  }

  lemma EmptyBag(bs: seq<seq<nat>>)
    ensures Flat(bs) == [] <==> Bag(bs) == multiset{}
  {
    assert |Bag(bs)| == |Flat(bs)|;
  }

  /** The rollback at the end of `hash_rehash`: two passes, neither of which asks for memory. */
  method Undo(table: HashTable, newTable: HashTable, heap: Allocator, ghost whole: seq<seq<nat>>)
    requires Apart(table, newTable) && table.Good() && newTable.Good()
    requires |whole| == table.bucket.Length && Placed(table.h, whole)
    requires Bags(table, newTable) == Bag(whole) && Overflow(whole) <= Nodes(table, newTable)
    modifies table`nUsed, table`free, table.bucket, newTable`nUsed, newTable.bucket, heap
    ensures table.Good() && Bag(table.bucket[..]) == Bag(whole)
    ensures heap.asked == old(heap.asked) && heap.granted == old(heap.granted)
    ensures Overflow(table.bucket[..]) + table.free == old(Nodes(table, newTable))
  {
    hide Bag, Placed, Used, Overflow, InRange;
    var first := TransferEntries(table, newTable, true, heap, []);
    assert Covers(whole, table, newTable);
    var second := TransferEntries(table, newTable, false, heap, whole);
    assert first && second;   // so the call of abort is unreachable
    NoOverflow(newTable.bucket[..]);
  }

  /** The part of `hash_rehash` that follows the set-up of the new table. */
  method Migrate(table: HashTable, newTable: HashTable, heap: Allocator) returns (ok: bool)
    requires Apart(table, newTable) && table.Good() && newTable.Good()
    requires newTable.h == table.h && newTable.free == table.free
    requires Bag(newTable.bucket[..]) == multiset{} && Overflow(newTable.bucket[..]) == 0
    modifies table`bucket, table`nUsed, table`free, table.bucket, newTable`nUsed, newTable`free, newTable.bucket, heap
    ensures table.Good() && table.bucket == if ok then newTable.bucket else old(table.bucket)
    ensures Bag(table.bucket[..]) == old(Bag(table.bucket[..]))
    ensures heap.asked >= old(heap.asked) && (ok <==> Served(heap.serves, old(heap.asked), heap.asked))
    ensures heap.asked <= old(heap.asked + table.nUsed)
    ensures !ok ==> table.nUsed == old(table.nUsed)
    ensures !ok ==>
      forall i | 0 <= i < table.bucket.Length :: multiset(table.bucket[i]) == multiset(old(table.bucket[..])[i])
    ensures Overflow(table.bucket[..]) + table.free ==
      old(Overflow(table.bucket[..]) + table.free) + (heap.granted - old(heap.granted))
  {
    hide Bag, Placed, Used, Overflow, InRange;
    ghost var whole := table.bucket[..];
    assert Bags(newTable, table) == Bag(whole);
    ok := TransferEntries(newTable, table, false, heap, []);
    if ok {
      NoOverflow(table.bucket[..]);
      assert Bags(newTable, table) == Bag(newTable.bucket[..]);
      table.bucket := newTable.bucket;
      table.nUsed := newTable.nUsed;
      table.free := newTable.free;
    } else {
      assert Bags(table, newTable) == Bags(newTable, table);
      table.free := newTable.free;
      Undo(table, newTable, heap, whole);
      SameBuckets(table.h, table.bucket[..], whole);
    }
  }

  /** Nothing but overflow nodes can keep a rehash from succeeding. */
  predicate Resizes(newSize: nat, size: nat, arrayServed: bool) {
    newSize != 0 && (newSize == size || arrayServed)
  }

  /** `hash_rehash`; `newSize` is what `compute_bucket_size` returns, 0 if it fails, and
      `arrayServed` tells whether the new bucket array can be allocated. */
  method Rehash(table: HashTable, newSize: nat, arrayServed: bool, heap: Allocator) returns (ok: bool)
    requires table.Good()
    modifies table`bucket, table`nUsed, table`free, table.bucket, heap
    ensures table.Good() && (table.bucket == old(table.bucket) || fresh(table.bucket))
    ensures Bag(table.bucket[..]) == old(Bag(table.bucket[..]))
    ensures ok <==> newSize != 0 && table.bucket.Length == newSize
    ensures old(heap.asked) <= heap.asked <= old(heap.asked + table.nUsed)
    ensures ok <==>
      Resizes(newSize, old(table.bucket.Length), arrayServed) && Served(heap.serves, old(heap.asked), heap.asked)
    ensures newSize != 0 && arrayServed && (forall k :: heap.serves(k)) ==> ok
    ensures newSize != 0 && newSize == old(table.bucket.Length) ==> ok && heap.asked == old(heap.asked)
    ensures !ok ==> table.bucket == old(table.bucket) && table.nUsed == old(table.nUsed)
    ensures !ok ==>
      forall i | 0 <= i < table.bucket.Length :: multiset(table.bucket[i]) == multiset(old(table.bucket[..])[i])
    ensures Overflow(table.bucket[..]) + table.free ==
      old(Overflow(table.bucket[..]) + table.free) + (heap.granted - old(heap.granted))
  {
    if newSize == 0 {
      return false;
    }
    if newSize == table.bucket.Length {
      return true;
    }
    if !arrayServed {
      return false;
    }
    var newTable := new HashTable(table.h, table.eq, newSize, table.free);
    ok := Migrate(table, newTable, heap);
  }

  lemma NoOverflow(bs: seq<seq<nat>>)
    requires Bag(bs) == multiset{}
    ensures Overflow(bs) == 0 && Used(bs) == 0
  {
    EmptyBag(bs);
    CountsAgree(bs);
  }

  /** The invariant between calls. */
  ghost predicate Valid(t: HashTable)
    reads t, t.bucket
  {
    t.Good() && Lawful(t.h, t.eq) && Distinct(t.eq, Bag(t.bucket[..])) && t.nEntries == |Bag(t.bucket[..])|
  }

  /** The first element of a chain that matches an entry, or the length of the chain. */
  method Scan(eq: Comparator, chain: seq<nat>, e: nat) returns (p: nat)
    ensures p <= |chain| && (p < |chain| ==> Matches(eq, e, chain[p]))
    ensures forall i | 0 <= i < p :: !Matches(eq, e, chain[i])
  {
    p := 0;
    while p < |chain|
      invariant p <= |chain| && forall i | 0 <= i < p :: !Matches(eq, e, chain[i])
    {
      if e == chain[p] || eq(e, chain[p]) {
        return;
      }
      p := p + 1;
    }
  }

  /** `hash_lookup`. */
  method Lookup(t: HashTable, e: nat) returns (data: nat)
    requires Valid(t)
    ensures data == 0 <==> forall x | x in Bag(t.bucket[..]) :: !Matches(t.eq, e, x)
    ensures data != 0 ==> data in Bag(t.bucket[..]) && Matches(t.eq, e, data)
  {
    MatchInBucket(t.h, t.eq, t.bucket[..], e);
    hide Bag, Placed, Used, Lawful, Distinct;
    var chain := t.bucket[t.h(e, t.bucket.Length)];
    var p := Scan(t.eq, chain, e);
    if p == |chain| {
      return 0;
    }
    return chain[p];
  }

  /** `hash_find_entry`: the matching entry or 0, and its bucket; with `delete` the entry is also
      unlinked and its node, or that of its successor, goes to the free list. */
  method FindEntry(t: HashTable, e: nat, delete: bool) returns (data: nat, d: nat)
    requires t.Good() && Lawful(t.h, t.eq)
    modifies t`free, t.bucket
    ensures d == t.h(e, t.bucket.Length) && d < t.bucket.Length
    ensures data == 0 <==> forall x | x in old(Bag(t.bucket[..])) :: !Matches(t.eq, e, x)
    ensures data != 0 ==> data in old(Bag(t.bucket[..])) && Matches(t.eq, e, data)
    ensures data == 0 || !delete ==> t.bucket[..] == old(t.bucket[..]) && t.free == old(t.free)
    ensures data != 0 && delete ==>
      && Placed(t.h, t.bucket[..])
      && Bag(t.bucket[..]) + multiset{data} == old(Bag(t.bucket[..]))
      && Used(t.bucket[..]) + (if t.bucket[d] == [] then 1 else 0) == t.nUsed
      && Overflow(t.bucket[..]) + t.free == old(Overflow(t.bucket[..]) + t.free)
  {
    hide Bag, Placed, Used, Overflow, Lawful, InRange, Matches;
    MatchInBucket(t.h, t.eq, t.bucket[..], e);
    d := t.h(e, t.bucket.Length);
    ghost var bs := t.bucket[..];
    var chain := t.bucket[d];
    var p := Scan(t.eq, chain, e);
    if p == |chain| {
      return 0, d;
    }
    data := chain[p];
    if delete {
      Unlink(t.h, bs, d, p);
      if |chain| > 1 {
        t.free := t.free + 1;
      }
      t.bucket[d] := chain[..p] + chain[p + 1..];
      assert t.bucket[..] == bs[d := Without(bs[d], p)];
    }
  }

  /** The circumstances in which an operation may resize the table: whether the threshold is
      passed, the size computed for the new bucket array (0 if there is none), and whether that
      array can be allocated. */
  datatype Resize = Resize(due: bool, size: nat, arrayServed: bool)

  /** `hash_insert_if_absent`: 0 with the matching entry, 1 after inserting, -1 out of memory. */
  method InsertIfAbsent(t: HashTable, e: nat, resize: Resize, heap: Allocator) returns (code: int, matched: nat)
    requires Valid(t) && e != 0
    modifies t, t.bucket, heap
    ensures Valid(t) && (t.bucket == old(t.bucket) || fresh(t.bucket))
    ensures code == 0 || code == 1 || code == -1
    ensures code == 0 <==> exists x :: x in old(Bag(t.bucket[..])) && Matches(t.eq, e, x)
    ensures code == 0 ==> matched in old(Bag(t.bucket[..])) && Matches(t.eq, e, matched)
    ensures code == 0 ==> t.bucket[..] == old(t.bucket[..]) && t.bucket == old(t.bucket)
    ensures Bag(t.bucket[..]) == old(Bag(t.bucket[..])) + (if code == 1 then multiset{e} else multiset{})
    ensures heap.asked >= old(heap.asked)
    ensures code == 0 ==> heap.asked == old(heap.asked)
    ensures code != 0 && !resize.due ==>
      var d := t.h(e, old(t.bucket.Length));
      && d < old(t.bucket.Length)
      && heap.asked == old(heap.asked) + if old(t.bucket[..])[d] == [] || old(t.free) > 0 then 0 else 1
    ensures code != 0 && resize.due ==> heap.asked <= old(heap.asked + t.nUsed) + 1
    ensures code != 0 && (resize.due ==> resize.size != 0 && resize.arrayServed) && (forall k :: heap.serves(k)) ==>
      code == 1
    ensures code != 0 ==> (code == 1 <==>
      (resize.due ==> Resizes(resize.size, old(t.bucket.Length), resize.arrayServed))
      && Served(heap.serves, old(heap.asked), heap.asked))
  {
    hide Bag, Placed, Used, Overflow, Lawful, Distinct, InRange, Matches, Served, Resizes;
    ghost var bag := Bag(t.bucket[..]);
    ghost var asked := heap.asked;
    NothingAsked(heap.serves, asked);
    AllServed(heap.serves);
    var data, d := FindEntry(t, e, false);
    if data != 0 {
      return 0, data;
    }
    if resize.due {
      var ok := Rehash(t, resize.size, resize.arrayServed, heap);
      if !ok {
        return -1, 0;
      }
      data, d := FindEntry(t, e, false);
      assert data == 0;         // so the call of abort is unreachable
    }
    assert Bag(t.bucket[..]) == bag;
    ghost var mid := heap.asked;
    var stored := t.Store(e, heap);
    AskedOn(heap.serves, asked, mid, heap.asked);
    if !stored {
      return -1, 0;
    }
    t.nEntries := t.nEntries + 1;
    DistinctAdd(t.h, t.eq, bag, e);
    return 1, 0;
  }

  lemma DistinctAdd(h: Hasher, eq: Comparator, bag: multiset<nat>, e: nat)
    requires Lawful(h, eq) && Distinct(eq, bag)
    requires forall x | x in bag :: !Matches(eq, e, x)
    ensures Distinct(eq, bag + multiset{e})
  {
  }

  /** `hash_delete`. */
  method Delete(t: HashTable, e: nat, resize: Resize, heap: Allocator) returns (data: nat)
    requires Valid(t)
    modifies t, t.bucket, heap
    ensures Valid(t) && (t.bucket == old(t.bucket) || fresh(t.bucket))
    ensures data == 0 <==> forall x | x in old(Bag(t.bucket[..])) :: !Matches(t.eq, e, x)
    ensures data == 0 ==> t.bucket[..] == old(t.bucket[..])
    ensures data != 0 ==> Matches(t.eq, e, data) && Bag(t.bucket[..]) + multiset{data} == old(Bag(t.bucket[..]))
  {
    hide Bag, Placed, Used, Overflow, Lawful, Distinct;
    ghost var bag := Bag(t.bucket[..]);
    var d;
    data, d := FindEntry(t, e, true);
    if data == 0 {
      return;
    }
    DistinctRemove(t.eq, bag, Bag(t.bucket[..]), data);
    t.nEntries := t.nEntries - 1;
    if t.bucket[d] == [] {
      t.nUsed := t.nUsed - 1;
      if resize.due {
        var ok := Rehash(t, resize.size, resize.arrayServed, heap);
        if !ok {
          t.free := 0;
        }
      }
    }
  }

  lemma DistinctRemove(eq: Comparator, bag: multiset<nat>, rest: multiset<nat>, x: nat)
    requires Distinct(eq, bag) && rest + multiset{x} == bag
    ensures Distinct(eq, rest) && |rest| + 1 == |bag|
  {
    forall y | y in rest
      ensures rest[y] == 1 && y in bag
    {
      assert bag[y] == rest[y] + multiset{x}[y];
    }
  }

  /** The inner loop of `hash_get_entries`: write one chain, as far as there is room. */
  method WriteChain(chain: seq<nat>, buffer: array<nat>, start: nat) returns (counter: nat)
    requires start <= buffer.Length
    modifies buffer
    ensures counter == if start + |chain| <= buffer.Length then start + |chain| else buffer.Length
    ensures forall j | start <= j < counter :: buffer[j] == chain[j - start]
    ensures forall j | 0 <= j < start || counter <= j < buffer.Length :: buffer[j] == old(buffer[j])
  {
    counter := start;
    for cursor := 0 to |chain|
      invariant counter == start + cursor <= buffer.Length
      invariant forall j | start <= j < counter :: buffer[j] == chain[j - start]
      invariant forall j | 0 <= j < start || counter <= j < buffer.Length :: buffer[j] == old(buffer[j])
    {
      if counter >= buffer.Length {
        return;
      }
      buffer[counter] := chain[cursor];
      counter := counter + 1;
    }
  }

  /** `hash_get_entries`: write the walk into a buffer, as far as it has room. */
  method GetEntries(t: HashTable, buffer: array<nat>) returns (counter: nat)
    requires t.Good()
    modifies buffer
    ensures var walk := Flat(t.bucket[..]);
      && counter == (if |walk| <= buffer.Length then |walk| else buffer.Length)
      && (forall j | 0 <= j < counter :: buffer[j] == walk[j])
      && (forall j | counter <= j < buffer.Length :: buffer[j] == old(buffer[j]))
  {
    ghost var bs := t.bucket[..];
    hide Flat, Placed, Used;
    counter := 0;
    FlatNil();
    assert bs[..0] == [];
    for b := 0 to t.bucket.Length
      invariant counter == |Flat(bs[..b])| <= buffer.Length && counter <= |Flat(bs)|
      invariant forall j | 0 <= j < counter :: buffer[j] == Flat(bs)[j]
      invariant forall j | counter <= j < buffer.Length :: buffer[j] == old(buffer[j])
    {
      FlatAt(bs, b);
      var start := counter;
      var chain := t.bucket[b];
      counter := WriteChain(chain, buffer, start);
      forall j | start <= j < counter
        ensures buffer[j] == Flat(bs)[j]
      {
        FlatIndex(bs, b, j - start);
      }
      if counter < start + |chain| {
        return;
      }
    }
    assert bs[..t.bucket.Length] == bs;
  }

  lemma FlatNil()
    ensures Flat([]) == []
  {
  }

  /** The first entry at or after the start of bucket `b`, or 0 if there is none. */
  method FirstFrom(t: HashTable, b: nat) returns (data: nat)
    requires t.Good() && b <= t.bucket.Length
    ensures var walk := Flat(t.bucket[..]); var start := |Flat(t.bucket[..b])|;
      start <= |walk| && data == if start < |walk| then walk[start] else 0
  {
    var i := b;
    assert t.bucket[..][..b] == t.bucket[..b];
    while i < t.bucket.Length
      invariant b <= i <= t.bucket.Length
      invariant Flat(t.bucket[..i]) == Flat(t.bucket[..b])
    {
      FlatAt(t.bucket[..], i);
      assert t.bucket[..][..i] == t.bucket[..i] && t.bucket[..][..i + 1] == t.bucket[..i + 1];
      if t.bucket[i] != [] {
        assert Flat(t.bucket[..i + 1])[|Flat(t.bucket[..i])|] == t.bucket[i][0];
        return t.bucket[i][0];
      }
      i := i + 1;
    }
    assert t.bucket[..t.bucket.Length] == t.bucket[..];
    return 0;
  }

  /** `hash_get_first`. */
  method GetFirst(t: HashTable) returns (data: nat)
    requires Valid(t)
    ensures var walk := Flat(t.bucket[..]); data == if walk == [] then 0 else walk[0]
  {
    FlatNil();
    assert |Bag(t.bucket[..])| == |Flat(t.bucket[..])|;
    if t.nEntries == 0 {
      return 0;
    }
    assert t.bucket[..0] == [];
    data := FirstFrom(t, 0);   // with entries present it does not run off the end
  }

  /** The first loop of `hash_get_next`: look for a successor in the chain itself. */
  method After(chain: seq<nat>, e: nat, ghost at: nat) returns (found: bool, data: nat)
    requires at < |chain| && forall p | 0 <= p < |chain| :: chain[p] == e <==> p == at
    ensures found == (at + 1 < |chain|) && (found ==> data == chain[at + 1])
  {
    for cursor := 0 to |chain|
      invariant cursor > at ==> at + 1 == |chain|
    {
      if chain[cursor] == e && cursor + 1 < |chain| {
        return true, chain[cursor + 1];
      }
    }
    return false, 0;
  }

  /** Where the entry is. */
  lemma EntryPlace(t: HashTable, e: nat, i: nat)
    requires Valid(t) && i < |Flat(t.bucket[..])| && Flat(t.bucket[..])[i] == e
    ensures var bs := t.bucket[..]; var b := t.h(e, |bs|); var at := i - |Flat(bs[..b])|;
      && b < |bs| && 0 <= at < |bs[b]| && (forall p | 0 <= p < |bs[b]| :: bs[b][p] == e <==> p == at)
      && (at + 1 < |bs[b]| ==> i + 1 < |Flat(bs)| && Flat(bs)[i + 1] == bs[b][at + 1])
      && (at + 1 == |bs[b]| ==> |Flat(bs[..b + 1])| == i + 1)
  {
    hide Bag, Flat, Used, Lawful, Overflow;
    var bs := t.bucket[..];
    PositionInBucket(t.h, bs, i);
    var b := t.h(e, |bs|);
    var at := i - |Flat(bs[..b])|;
    if at + 1 < |bs[b]| { FlatIndex(bs, b, at + 1); }
  }

  /** `hash_get_next`: the entry after one that an earlier call returned, or 0. */
  method GetNext(t: HashTable, e: nat, ghost i: nat) returns (data: nat)
    requires Valid(t) && i < |Flat(t.bucket[..])| && Flat(t.bucket[..])[i] == e
    ensures var walk := Flat(t.bucket[..]); data == if i + 1 < |walk| then walk[i + 1] else 0
  {
    hide Bag, Flat, Placed, Used, Lawful, Distinct, Overflow;
    ghost var bs := t.bucket[..];
    EntryPlace(t, e, i);
    var b := t.h(e, t.bucket.Length);
    var found;
    found, data := After(t.bucket[b], e, i - |Flat(bs[..b])|);
    if !found {
      assert t.bucket[..b + 1] == bs[..b + 1];
      data := FirstFrom(t, b + 1);
    }
  }

  /** A caller's loop over `hash_get_first` and `hash_get_next` sees every entry once, in the order
      in which `hash_get_entries` writes them. */
  method Walk(t: HashTable) returns (seen: seq<nat>)
    requires Valid(t)
    ensures seen == Flat(t.bucket[..]) && multiset(seen) == Bag(t.bucket[..])
  {
    hide Flat, Placed, Used, Lawful, Distinct, InRange;
    ghost var walk := Flat(t.bucket[..]);
    seen := [];
    var data := GetFirst(t);
    while data != 0
      invariant walk == Flat(t.bucket[..]) && |seen| <= |walk| && seen == walk[..|seen|]
      invariant data == if |seen| < |walk| then walk[|seen|] else 0
      decreases |walk| - |seen|
    {
      seen := seen + [data];
      data := GetNext(t, data, |seen| - 1);
    }
    if |seen| < |walk| {
      WalkNotNull(t.h, t.bucket[..], |seen|);
      assert false;
    }
  }

  /** No entry of a table is NULL. */
  lemma {:induction false} WalkNotNull(h: Hasher, bs: seq<seq<nat>>, i: nat)
    requires Placed(h, bs) && i < |Flat(bs)|
    ensures Flat(bs)[i] != 0
  {
    FlatNotNull(h, bs, |bs|, i);
  }

  lemma {:induction false} FlatNotNull(h: Hasher, bs: seq<seq<nat>>, n: nat, i: nat)
    requires forall j | 0 <= j < |bs| :: PlacedIn(h, n, j, bs[j])
    requires i < |Flat(bs)|
    ensures Flat(bs)[i] != 0
    decreases |bs|
  {
    var m := |bs| - 1;
    if i < |Flat(bs[..m])| {
      FlatNotNull(h, bs[..m], n, i);
    } else {
      assert PlacedIn(h, n, m, bs[m]);
      assert Flat(bs)[i] == bs[m][i - |Flat(bs[..m])|];
      assert bs[m][i - |Flat(bs[..m])|] in bs[m];
    }
  }
}
