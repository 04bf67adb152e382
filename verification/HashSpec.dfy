/** Bucket arrays as values: a bucket is its chain of entries, head first, and is empty when its
    head holds no data.  Entries are pointers; 0 is NULL. */
module HashSpec {

  type Hasher = (nat, nat) -> nat
  type Comparator = (nat, nat) -> bool

  /** All entries, in the order of a walk over the table. */
  function Flat(bs: seq<seq<nat>>): seq<nat> {
    if bs == [] then [] else Flat(bs[..|bs| - 1]) + bs[|bs| - 1]
  }

  ghost function Bag(bs: seq<seq<nat>>): multiset<nat> {
    multiset(Flat(bs))
  }

  function OverflowOf(b: seq<nat>): nat {
    if b == [] then 0 else |b| - 1
  }

  /** How many nodes outside the bucket array the chains occupy. */
  function Overflow(bs: seq<seq<nat>>): nat {
    if bs == [] then 0 else Overflow(bs[..|bs| - 1]) + OverflowOf(bs[|bs| - 1])
  }

  function UsedOf(b: seq<nat>): nat {
    if b == [] then 0 else 1
  }

  /** How many buckets are not empty. */
  function Used(bs: seq<seq<nat>>): nat {
    if bs == [] then 0 else Used(bs[..|bs| - 1]) + UsedOf(bs[|bs| - 1])
  }

  /** Add an entry behind the head of its chain, as every path of the source does. */
  function Chained(b: seq<nat>, x: nat): seq<nat> {
    if b == [] then [x] else [b[0], x] + b[1..]
  }

  /** The hasher stays below the size it is given. */
  ghost predicate InRange(h: Hasher) {
    forall x, n: nat {:trigger h(x, n)} | n > 0 :: h(x, n) < n
  }

  ghost predicate PlacedIn(h: Hasher, n: nat, i: nat, b: seq<nat>) {
    forall x | x in b :: x != 0 && h(x, n) == i
  }

  /** Every entry is in the bucket that the hasher selects for it. */
  ghost predicate Placed(h: Hasher, bs: seq<seq<nat>>) {
    forall i | 0 <= i < |bs| :: PlacedIn(h, |bs|, i, bs[i])
  }

  lemma {:induction false} CountsAgree(bs: seq<seq<nat>>)
    ensures |Flat(bs)| == Overflow(bs) + Used(bs)
    ensures Used(bs) <= |bs|
    decreases |bs|
  {
    if bs != [] { CountsAgree(bs[..|bs| - 1]); }
  }

  /** What replacing one bucket does to every measure. */
  lemma {:induction false} Replace(bs: seq<seq<nat>>, i: nat, b: seq<nat>)
    requires i < |bs|
    ensures Bag(bs[i := b]) + multiset(bs[i]) == Bag(bs) + multiset(b)
    ensures Overflow(bs[i := b]) + OverflowOf(bs[i]) == Overflow(bs) + OverflowOf(b)
    ensures Used(bs[i := b]) + UsedOf(bs[i]) == Used(bs) + UsedOf(b)
    decreases |bs|
  {
    var n := |bs| - 1;
    var bs' := bs[i := b];
    if i == n {
      assert bs'[..n] == bs[..n];
      BagOrder(Bag(bs[..n]), multiset(b), multiset(bs[n]));
    } else {
      assert bs'[..n] == bs[..n][i := b];
      Replace(bs[..n], i, b);
      BagFrame(Bag(bs'[..n]), Bag(bs[..n]), multiset(bs[i]), multiset(b), multiset(bs[n]));
    }
  }

  lemma BagOrder(a: multiset<nat>, b: multiset<nat>, c: multiset<nat>)
    ensures (a + b) + c == (a + c) + b
  {
  }

  lemma BagFrame(a: multiset<nat>, b: multiset<nat>, c: multiset<nat>, d: multiset<nat>, rest: multiset<nat>)
    requires a + c == b + d
    ensures (a + rest) + c == (b + rest) + d
  {
    forall x
      ensures ((a + rest) + c)[x] == ((b + rest) + d)[x]
    {
      assert (a + c)[x] == (b + d)[x];
    }
  }

  lemma ChainedBag(b: seq<nat>, x: nat)
    ensures multiset(Chained(b, x)) == multiset(b) + multiset{x}
    ensures |Chained(b, x)| == |b| + 1
  {
    if b != [] { assert b == [b[0]] + b[1..]; }
  }

  /** Adding an entry to the chain that the hasher selects. */
  lemma ChainOn(h: Hasher, bs: seq<seq<nat>>, x: nat)
    requires |bs| > 0 && InRange(h) && Placed(h, bs) && x != 0
    ensures h(x, |bs|) < |bs|
    ensures var d := h(x, |bs|); var bs' := bs[d := Chained(bs[d], x)];
      && Placed(h, bs')
      && Bag(bs') == Bag(bs) + multiset{x}
      && Overflow(bs') == Overflow(bs) + UsedOf(bs[d])
      && Used(bs') + UsedOf(bs[d]) == Used(bs) + 1
  {
    var d := h(x, |bs|);
    assert d < |bs|;
    var b := Chained(bs[d], x);
    Replace(bs, d, b);
    ChainedBag(bs[d], x);
    assert PlacedIn(h, |bs|, d, b) by {
      assert PlacedIn(h, |bs|, d, bs[d]);
      forall y | y in b
        ensures y in bs[d] || y == x
      {
        assert multiset(b)[y] > 0;
      }
    }
    assert Bag(bs[d := b]) == Bag(bs) + multiset{x} by {
      assert Bag(bs[d := b]) + multiset(bs[d]) == Bag(bs) + multiset{x} + multiset(bs[d]);
      CancelBag(Bag(bs[d := b]), Bag(bs) + multiset{x}, multiset(bs[d]));
    }
  }

  lemma CancelBag(a: multiset<nat>, b: multiset<nat>, c: multiset<nat>)
    requires a + c == b + c
    ensures a == b
  {
    forall x
      ensures a[x] == b[x]
    {
      assert (a + c)[x] == (b + c)[x];
    }
  }

  /** In a placed table an entry occurs only in its own bucket. */
  lemma {:induction false} CountInBucket(h: Hasher, bs: seq<seq<nat>>, n: nat, i: nat, x: nat)
    requires h(x, n) == i
    requires forall j | 0 <= j < |bs| :: PlacedIn(h, n, j, bs[j])
    ensures Bag(bs)[x] == if i < |bs| then multiset(bs[i])[x] else 0
    decreases |bs|
  {
    if bs != [] {
      var m := |bs| - 1;
      CountInBucket(h, bs[..m], n, i, x);
      if i != m { assert PlacedIn(h, n, m, bs[m]); }
    }
  }

  lemma InBucket(h: Hasher, bs: seq<seq<nat>>, x: nat)
    requires Placed(h, bs) && InRange(h) && |bs| > 0
    ensures h(x, |bs|) < |bs|
    ensures x in Flat(bs) <==> x in bs[h(x, |bs|)]
    ensures Bag(bs)[x] == multiset(bs[h(x, |bs|)])[x]
  {
    CountInBucket(h, bs, |bs|, h(x, |bs|), x);
    assert x in Flat(bs) <==> Bag(bs)[x] > 0;
  }

  lemma {:induction false} InFlat(bs: seq<seq<nat>>, i: nat, x: nat)
    requires i < |bs| && x in bs[i]
    ensures x in Flat(bs)
    decreases |bs|
  {
    if i < |bs| - 1 { InFlat(bs[..|bs| - 1], i, x); }
  }

  /** Two placed tables of one size with the same entries agree bucket by bucket, and in every count. */
  lemma {:induction false} SameBuckets(h: Hasher, a: seq<seq<nat>>, b: seq<seq<nat>>)
    requires |a| == |b| && Placed(h, a) && Placed(h, b) && Bag(a) == Bag(b)
    ensures forall i | 0 <= i < |a| :: multiset(a[i]) == multiset(b[i])
    ensures Overflow(a) == Overflow(b) && Used(a) == Used(b)
  {
    forall i | 0 <= i < |a|
      ensures multiset(a[i]) == multiset(b[i])
    {
      forall x
        ensures multiset(a[i])[x] == multiset(b[i])[x]
      {
        if h(x, |a|) == i {
          CountInBucket(h, a, |a|, i, x);
          CountInBucket(h, b, |b|, i, x);
        } else {
          assert PlacedIn(h, |a|, i, a[i]) && PlacedIn(h, |b|, i, b[i]);
          assert x !in a[i] && x !in b[i];
        }
      }
    }
    SameCounts(a, b);
  }

  lemma {:induction false} SameCounts(a: seq<seq<nat>>, b: seq<seq<nat>>)
    requires |a| == |b|
    requires forall i | 0 <= i < |a| :: multiset(a[i]) == multiset(b[i])
    ensures Overflow(a) == Overflow(b) && Used(a) == Used(b)
    decreases |a|
  {
    if a != [] {
      var n := |a| - 1;
      assert |a[n]| == |multiset(a[n])| == |multiset(b[n])| == |b[n]|;
      SameCounts(a[..n], b[..n]);
    }
  }

  /** A table whose entries are some of those of `whole` needs no more overflow nodes. */
  lemma {:induction false} FewerNodes(part: seq<seq<nat>>, whole: seq<seq<nat>>)
    requires |part| == |whole|
    requires forall i | 0 <= i < |part| :: |part[i]| <= |whole[i]|
    ensures Overflow(part) <= Overflow(whole)
    decreases |part|
  {
    if part != [] {
      FewerNodes(part[..|part| - 1], whole[..|whole| - 1]);
    }
  }

  /** A bucket of the whole table holds what the partial one has there and what is missing there. */
  lemma PartOfBucket(h: Hasher, part: seq<seq<nat>>, missing: multiset<nat>, whole: seq<seq<nat>>, j: nat, y: nat)
    requires |part| == |whole| && j < |part|
    requires Placed(h, part) && Placed(h, whole)
    requires Bag(part) + missing == Bag(whole)
    ensures multiset(whole[j])[y] == multiset(part[j])[y] + (if h(y, |part|) == j then missing[y] else 0)
  {
    if h(y, |part|) == j {
      CountInBucket(h, whole, |part|, j, y);
      CountInBucket(h, part, |part|, j, y);
      assert Bag(whole)[y] == Bag(part)[y] + missing[y];
    } else {
      assert PlacedIn(h, |part|, j, part[j]) && PlacedIn(h, |part|, j, whole[j]);
      assert y !in part[j] && y !in whole[j];
    }
  }

  /** The counting argument of the rollback.  While entries move back one by one into a table of
      the original size, putting one more into an occupied bucket needs no more overflow nodes than
      the original layout had. */
  lemma {:induction false} OneMoreFits(h: Hasher, part: seq<seq<nat>>, missing: multiset<nat>, whole: seq<seq<nat>>,
                                       x: nat)
    requires InRange(h) && |part| == |whole| > 0
    requires Placed(h, part) && Placed(h, whole)
    requires Bag(part) + missing == Bag(whole) && x in missing
    ensures h(x, |part|) < |part|
    ensures part[h(x, |part|)] != [] ==> Overflow(part) + 1 <= Overflow(whole)
  {
    var n := |part|;
    var i := h(x, n);
    assert i < n;
    var more := part[i := Chained(part[i], x)];
    Replace(part, i, Chained(part[i], x));
    ChainedBag(part[i], x);
    hide Bag, Placed;
    forall j | 0 <= j < n
      ensures |more[j]| <= |whole[j]|
    {
      forall y
        ensures multiset(more[j])[y] <= multiset(whole[j])[y]
      {
        PartOfBucket(h, part, missing, whole, j, y);
      }
      assert multiset(more[j]) <= multiset(whole[j]);
      var rest := multiset(whole[j]) - multiset(more[j]);
      assert multiset(whole[j]) == multiset(more[j]) + rest;
      assert |multiset(more[j])| <= |multiset(whole[j])|;
    }
    FewerNodes(more, whole);
  }

  /** The comparison under which the table finds entries. */
  predicate Matches(eq: Comparator, a: nat, b: nat) {
    a == b || eq(a, b)
  }

  /** What the table demands of its two functions: the comparator is an equivalence, and entries
      that it identifies hash alike at every size. */
  ghost predicate Lawful(h: Hasher, eq: Comparator) {
    && InRange(h)
    && (forall a, b | eq(a, b) :: eq(b, a))
    && (forall a, b, c | eq(a, b) && eq(b, c) :: eq(a, c))
    && (forall a, b, n: nat {:trigger h(a, n), eq(a, b)} | eq(a, b) :: h(a, n) == h(b, n))
  }

  /** No two entries match. */
  ghost predicate Distinct(eq: Comparator, bag: multiset<nat>) {
    && (forall x | x in bag :: bag[x] == 1)
    && (forall x, y | x in bag && y in bag && x != y :: !eq(x, y))
  }

  /** Whatever matches an entry is in the bucket of that entry. */
  lemma MatchInBucket(h: Hasher, eq: Comparator, bs: seq<seq<nat>>, e: nat)
    requires Lawful(h, eq) && Placed(h, bs) && |bs| > 0
    ensures h(e, |bs|) < |bs|
    ensures forall x | x in Bag(bs) && Matches(eq, e, x) :: x in bs[h(e, |bs|)]
    ensures forall x | x in bs[h(e, |bs|)] :: x in Bag(bs) && x != 0
  {
    var d := h(e, |bs|);
    forall x | x in Bag(bs) && Matches(eq, e, x)
      ensures x in bs[d]
    {
      InBucket(h, bs, x);
    }
    forall x | x in bs[d]
      ensures x in Bag(bs) && x != 0
    {
      InFlat(bs, d, x);
      assert PlacedIn(h, |bs|, d, bs[d]);
    }
  }

  /** The chain without its element number `p`. */
  function Without(b: seq<nat>, p: nat): seq<nat>
    requires p < |b|
  {
    b[..p] + b[p + 1..]
  }

  lemma BagTakes(rest: multiset<nat>, all: multiset<nat>, b: multiset<nat>, x: multiset<nat>)
    requires rest + (b + x) == all + b
    ensures rest + x == all
  {
    forall y
      ensures (rest + x)[y] == all[y]
    {
      assert (rest + (b + x))[y] == (all + b)[y];
    }
  }

  /** Unlinking one entry. */
  lemma Unlink(h: Hasher, bs: seq<seq<nat>>, d: nat, p: nat)
    requires d < |bs| && p < |bs[d]| && Placed(h, bs)
    ensures var bs' := bs[d := Without(bs[d], p)];
      && Placed(h, bs')
      && Bag(bs') + multiset{bs[d][p]} == Bag(bs)
      && Overflow(bs') + (if |bs[d]| > 1 then 1 else 0) == Overflow(bs)
      && Used(bs') + (if |bs[d]| > 1 then 0 else 1) == Used(bs)
  {
    var b := Without(bs[d], p);
    Replace(bs, d, b);
    assert bs[d] == bs[d][..p] + [bs[d][p]] + bs[d][p + 1..];
    assert multiset(bs[d]) == multiset(b) + multiset{bs[d][p]};
    var bs' := bs[d := b];
    BagTakes(Bag(bs'), Bag(bs), multiset(b), multiset{bs[d][p]});
    assert PlacedIn(h, |bs|, d, bs[d]);
    assert forall y | y in b :: y in bs[d];
    assert PlacedIn(h, |bs|, d, b);
  }

  /** Where the entries of one bucket stand in a walk. */
  lemma {:induction false} FlatAt(bs: seq<seq<nat>>, d: nat)
    requires d < |bs|
    ensures Flat(bs[..d + 1]) == Flat(bs[..d]) + bs[d]
    ensures |Flat(bs[..d])| + |bs[d]| <= |Flat(bs)|
    ensures Flat(bs[..d + 1]) == Flat(bs)[..|Flat(bs[..d])| + |bs[d]|]
    decreases |bs|
  {
    var n := |bs| - 1;
    if d == n {
      assert bs[..d + 1] == bs;
    } else {
      FlatAt(bs[..n], d);
      assert bs[..n][..d] == bs[..d] && bs[..n][..d + 1] == bs[..d + 1];
    }
  }

  lemma FlatIndex(bs: seq<seq<nat>>, d: nat, p: nat)
    requires d < |bs| && p < |bs[d]|
    ensures |Flat(bs[..d])| + p < |Flat(bs)|
    ensures Flat(bs)[|Flat(bs[..d])| + p] == bs[d][p]
  {
    hide Flat;
    FlatAt(bs, d);
    var start := |Flat(bs[..d])|;
    assert Flat(bs)[..start + |bs[d]|][start + p] == (Flat(bs[..d]) + bs[d])[start + p];
  }

  /** In a walk without repetitions an entry has one position. */
  lemma TwoPositions(s: seq<nat>, i: nat, j: nat)
    requires i < j < |s| && s[i] == s[j]
    ensures multiset(s)[s[i]] >= 2
  {
    assert s == s[..j] + [s[j]] + s[j + 1..];
    assert s[..j][i] == s[i];
    assert s[i] in multiset(s[..j]);
  }

  /** Where an entry at position `i` of the walk stands in its bucket. */
  lemma PositionInBucket(h: Hasher, bs: seq<seq<nat>>, i: nat)
    requires InRange(h) && Placed(h, bs) && |bs| > 0 && i < |Flat(bs)|
    requires forall x | x in Bag(bs) :: Bag(bs)[x] == 1
    ensures var e := Flat(bs)[i]; var b := h(e, |bs|);
      && b < |bs|
      && var start := |Flat(bs[..b])|;
      && start <= i < start + |bs[b]| == |Flat(bs[..b + 1])| <= |Flat(bs)|
      && (forall p | 0 <= p < |bs[b]| :: bs[b][p] == e <==> p == i - start)
  {
    var e := Flat(bs)[i];
    assert e in Flat(bs);
    assert Bag(bs)[e] == 1;
    InBucket(h, bs, e);
    var b := h(e, |bs|);
    hide Flat, Bag, Placed, InRange;
    FlatAt(bs, b);
    var at :| 0 <= at < |bs[b]| && bs[b][at] == e;
    OnlyPosition(bs, i, b, at);
    forall p | 0 <= p < |bs[b]| && bs[b][p] == e
      ensures p == i - |Flat(bs[..b])|
    {
      OnlyPosition(bs, i, b, p);
    }
  }

  lemma OnlyPosition(bs: seq<seq<nat>>, i: nat, b: nat, p: nat)
    requires i < |Flat(bs)| && Bag(bs)[Flat(bs)[i]] == 1
    requires b < |bs| && p < |bs[b]| && bs[b][p] == Flat(bs)[i]
    ensures i == |Flat(bs[..b])| + p
  {
    var j := |Flat(bs[..b])| + p;
    FlatIndex(bs, b, p);
    if i < j { TwoPositions(Flat(bs), i, j); }
    if j < i { TwoPositions(Flat(bs), j, i); }
  }
}
