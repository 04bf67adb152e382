/** The GLR stack of glr.c in place: an arena of items linked by addresses, its free space, the set
    of stack tops and the split point.  Addresses count items; 0 is NULL. */
module GlrStack {
  import opened Grammar
  import opened LrTables
  import opened GlrForest
  import opened GlrMachine
  import opened GlrCompress
  import GlrReturn

  const HEADROOM := 2            // YYHEADROOM

  type Address = int

  /** The union `yysemantics`; `Garbled` is a value overwritten by an option pointer. */
  datatype Semantics = Value(tree: Tree) | Options(first: Address) | Garbled(first: Address)

  /** `yyGLRStackItem`. */
  datatype Item =
    | State(lr: nat, pred: Address, posn: nat, semantics: Semantics)
    | SemanticOption(rule: nat, rhs: Address, next: Address)

  type Items = seq<Item>

  /** The index of an address in an arena that starts at `base`. */
  function Offset(base: nat, p: Address): Ref {
    if p == 0 then NULL else p - base
  }

  function SemOf(base: nat, s: Semantics): Sem {
    match s
    case Value(v) => Val(v)
    case Options(f) => Chain(Offset(base, f))
    case Garbled(f) => Clobbered(Offset(base, f))
  }

  /** An item with its addresses turned into indices. */
  function CellOf(base: nat, x: Item): Cell {
    match x
    case State(lr, pred, posn, s) => StateCell(lr, Offset(base, pred), posn, SemOf(base, s))
    case SemanticOption(r, rhs, next) => OptionCell(r, Offset(base, rhs), Offset(base, next))
  }

  function CellsOf(base: nat, xs: Items): (cells: Cells)
    ensures |cells| == |xs|
    ensures forall i | 0 <= i < |xs| :: cells[i] == CellOf(base, xs[i])
  {
    seq(|xs|, i requires 0 <= i < |xs| => CellOf(base, xs[i]))
  }

  function RefsOf(base: nat, ps: seq<Address>): (rs: seq<Ref>)
    ensures |rs| == |ps|
    ensures forall k | 0 <= k < |ps| :: rs[k] == Offset(base, ps[k])
  {
    seq(|ps|, k requires 0 <= k < |ps| => Offset(base, ps[k]))
  }

  lemma CellsAppend(base: nat, xs: Items, x: Item)
    ensures CellsOf(base, xs + [x]) == CellsOf(base, xs) + [CellOf(base, x)]
  {
  }

  lemma RefsUpdate(base: nat, ps: seq<Address>, k: nat, p: Address)
    requires k < |ps|
    ensures RefsOf(base, ps[k := p]) == RefsOf(base, ps)[k := Offset(base, p)]
  {
  }

  /** A pointer is NULL or points to one of the first `n` items. */
  predicate Points(base: nat, n: nat, p: Address) {
    p == 0 || base <= p < base + n
  }

  predicate SemanticsPoints(base: nat, n: nat, s: Semantics) {
    match s
    case Value(_) => true
    case Options(f) => Points(base, n, f)
    case Garbled(_) => true
  }

  predicate ItemPoints(base: nat, n: nat, x: Item) {
    match x
    case State(_, pred, _, s) => Points(base, n, pred) && SemanticsPoints(base, n, s)
    case SemanticOption(_, rhs, next) => Points(base, n, rhs) && Points(base, n, next)
  }

  /** `YYRELOC`: as far from `to` as `x` is from `from`; its callers leave NULL alone. */
  function Reloc(from: nat, to: nat, x: Address): Address {
    if x == 0 then 0 else to - (from - x)
  }

  /** The body of the loop of `yyexpandGLRStack`, for the item at address `from` copied to `to`. */
  function RelocItem(from: nat, to: nat, x: Item): Item {
    match x
    case State(_, pred, _, Options(f)) => x.(pred := Reloc(from, to, pred), semantics := Options(Reloc(from, to, f)))
    case State(_, pred, _, _) => x.(pred := Reloc(from, to, pred))
    case SemanticOption(_, rhs, next) => x.(rhs := Reloc(from, to, rhs), next := Reloc(from, to, next))
  }

  /** The value stored in an item that holds one. */
  function ValueOf(x: Item): Tree {
    if x.State? && x.semantics.Value? then x.semantics.tree else Leaf(0)
  }

  predicate IsGarbled(x: Item) {
    x.State? && x.semantics.Garbled?
  }

  /** The new option, and the state that it is an option of. */
  lemma OptionPoints(base: nat, n: nat, x: Item, rhs: Address, rule: nat)
    requires base > 0 && x.State? && ItemPoints(base, n, x) && Points(base, n, rhs)
    ensures var next := if x.semantics.Options? then x.semantics.first else 0;
      ItemPoints(base, n + 1, SemanticOption(rule, rhs, next))
    ensures ItemPoints(base, n + 1,
      x.(semantics := if x.semantics.Options? then Options(base + n) else Garbled(base + n)))
  {
  }

  lemma OptionAdded(base: nat, xs: Items, i: nat, rhs: Address, rule: nat, q: Address)
    requires base > 0 && i < |xs| && xs[i].State? && q == base + |xs|
    ensures var s := xs[i].semantics; var next := if s.Options? then s.first else 0;
      && IsState(CellsOf(base, xs), i)
      && CellsOf(base, (xs + [SemanticOption(rule, rhs, next)])
                         [i := xs[i].(semantics := if s.Options? then Options(q) else Garbled(q))])
         == WithOption(CellsOf(base, xs), i, Offset(base, rhs), rule)
  {
  }

  /** Links keep their offsets when an item moves with its arena. */
  lemma RelocKeepsOffsets(base: nat, base': nat, i: nat, n: nat, x: Item)
    requires base > 0 && base' > 0 && ItemPoints(base, n, x)
    ensures var x' := RelocItem(base + i, base' + i, x);
      ItemPoints(base', n, x') && (!IsGarbled(x) ==> CellOf(base', x') == CellOf(base, x))
  {
  }

  /** Relocating every item of an arena leaves what it represents unchanged. */
  lemma RelocKeepsCells(base: nat, base': nat, xs: Items, xs': Items)
    requires base > 0 && base' > 0 && |xs'| == |xs|
    requires forall i | 0 <= i < |xs| :: ItemPoints(base, |xs|, xs[i])
    requires forall i | 0 <= i < |xs| :: xs'[i] == RelocItem(base + i, base' + i, xs[i])
    ensures forall i | 0 <= i < |xs| :: ItemPoints(base', |xs|, xs'[i])
    ensures (forall i | 0 <= i < |xs| :: !IsGarbled(xs[i])) ==> CellsOf(base', xs') == CellsOf(base, xs)
  {
    forall i | 0 <= i < |xs|
      ensures ItemPoints(base', |xs|, xs'[i])
      ensures !IsGarbled(xs[i]) ==> CellOf(base', xs'[i]) == CellOf(base, xs[i])
    {
      RelocKeepsOffsets(base, base', i, |xs|, xs[i]);
    }
  }

  /** The memory allocator: what request number `k` yields starts at address `start(k)`, or is refused if that
      is 0. */
  class Heap {
    const start: nat -> nat
    var asked: nat

    constructor (start: nat -> nat)
      ensures this.start == start && asked == 0
    {
      this.start := start;
      asked := 0;
    }

    method Malloc() returns (p: nat)
      modifies this
      ensures asked == old(asked) + 1 && p == start(old(asked))
    {
      p := start(asked);
      asked := asked + 1;
    }
  }

  /** What an arena may draw on: its greatest size and the allocator. */
  datatype Supply = Supply(maxDepth: nat, start: nat -> nat)

  /** The size of an arena, and how many requests have been made. */
  datatype Memory = Memory(capacity: nat, asked: nat)

  datatype Reservation = Reservation(ok: bool, memory: Memory)

  /** `YY_RESERVE_GLRSTACK` when `n` items are in use: nothing if there is room for two more; else an arena of
      twice the size, or the maximal one, is asked for, unless even that would not do. */
  function Reserving(sup: Supply, m: Memory, n: nat): Reservation {
    if n + HEADROOM <= m.capacity then Reservation(true, m)
    else if sup.maxDepth < n + HEADROOM then Reservation(false, m)
    else if sup.start(m.asked) == 0 then Reservation(false, Memory(m.capacity, m.asked + 1))
    else Reservation(true, Memory(if sup.maxDepth < 2 * n then sup.maxDepth else 2 * n, m.asked + 1))
  }

  class GlrStack {
    const maxDepth: nat          // YYMAXDEPTH
    var base: nat                // yyitems
    var items: array<Item>
    var nextFree: nat            // an index, not an address
    var spaceLeft: nat
    var splitPoint: Address
    var tops: seq<Address>       // yytops.yystates[0 .. yysize - 1]
    var posn: nat                // yyposn of the caller

    /** `yyinitGLRStack`, and the first state. */
    constructor (maxDepth: nat, base: nat, size: nat, v: Tree)
      requires base > 0 && 2 * HEADROOM <= size <= maxDepth
      ensures Shape() && this.maxDepth == maxDepth && items.Length == size && fresh(items) && spaceLeft >= HEADROOM
      ensures posn == 0
      ensures splitPoint == 0 && Abs() == Glr([StateCell(0, NULL, 0, Val(v))], [0], NULL, 0)
    {
      this.maxDepth, this.base := maxDepth, base;
      items := new Item[size](_ => State(0, 0, 0, Value(v)));
      nextFree, spaceLeft, splitPoint, tops, posn := 1, size - 1, 0, [base], 0;
      new;
      assert items[..nextFree] == [State(0, 0, 0, Value(v))];
    }

    /** The accounting of space, and the sanity of all pointers. */
    ghost predicate Shape()
      reads this, items
    {
      && base > 0 && nextFree + spaceLeft == items.Length
      && (forall i | 0 <= i < nextFree :: ItemPoints(base, nextFree, items[i]))
      && (forall k | 0 <= k < |tops| :: Points(base, nextFree, tops[k]))
      && Points(base, nextFree, splitPoint)
    }

    /** The configuration that the arena represents, whatever its address. */
    ghost function Abs(): Glr
      requires nextFree <= items.Length
      reads this, items
    {
      Glr(CellsOf(base, items[..nextFree]), RefsOf(base, tops), Offset(base, splitPoint), posn)
    }

    lemma ShapeHas()
      requires Shape()
      ensures base > 0 && nextFree + spaceLeft == items.Length && Points(base, nextFree, splitPoint)
      ensures forall i | 0 <= i < nextFree :: ItemPoints(base, nextFree, items[..][i])
      ensures forall k | 0 <= k < |tops| :: Points(base, nextFree, tops[k])
    {
    }

    lemma ShapeIs(xs: Items)
      requires base > 0 && nextFree + spaceLeft == items.Length && xs == items[..nextFree]
      requires forall i | 0 <= i < |xs| :: ItemPoints(base, |xs|, xs[i])
      requires forall k | 0 <= k < |tops| :: Points(base, nextFree, tops[k])
      requires Points(base, nextFree, splitPoint)
      ensures Shape()
    {
      assert forall i | 0 <= i < nextFree :: items[i] == xs[i];
    }

    /** `yynewGLRStackItem` with the initialisation that follows it. */
    method NewItem(x: Item) returns (p: Address)
      requires Shape() && spaceLeft > 0 && ItemPoints(base, nextFree + 1, x)
      modifies this`nextFree, this`spaceLeft, items
      ensures Shape() && spaceLeft + 1 == old(spaceLeft)
      ensures Abs() == old(Abs()).(cells := old(Abs()).cells + [CellOf(base, x)])
      ensures p == base + old(nextFree) && items[..nextFree] == old(items[..nextFree]) + [x]
    {
      p := base + nextFree;
      items[nextFree] := x;
      CellsAppend(base, items[..nextFree], x);
      spaceLeft := spaceLeft - 1;
      nextFree := nextFree + 1;
      assert items[..nextFree] == old(items[..nextFree]) + [x];
    }

    /** The loop of `yyexpandGLRStack`. */
    method CopyItems(newBase: nat, newItems: array<Item>)
      requires nextFree <= items.Length && nextFree <= newItems.Length && newItems != items
      modifies newItems
      ensures forall j | 0 <= j < nextFree :: newItems[j] == RelocItem(base + j, newBase + j, items[j])
    {
      for i := 0 to nextFree
        invariant forall j | 0 <= j < i :: newItems[j] == RelocItem(base + j, newBase + j, items[j])
      {
        newItems[i] := RelocItem(base + i, newBase + i, items[i]);
      }
    }

    /** The relocation of the stack tops. */
    method RelocTops(newBase: nat) returns (newTops: seq<Address>)
      requires Shape() && newBase > 0
      ensures |newTops| == |tops| && RefsOf(newBase, newTops) == RefsOf(base, tops)
      ensures forall k | 0 <= k < |newTops| :: Points(newBase, nextFree, newTops[k])
    {
      newTops := [];
      for k := 0 to |tops|
        invariant |newTops| == k
        invariant forall j | 0 <= j < k :: newTops[j] == Reloc(base, newBase, tops[j])
      {
        newTops := newTops + [Reloc(base, newBase, tops[k])];
      }
    }

    /** `yyexpandGLRStack`: move everything to a bigger arena; false if memory is exhausted.  Only the
        storage of a clobbered value is not followed. */
    method Expand(heap: Heap) returns (ok: bool)
      requires Shape() && nextFree >= HEADROOM
      modifies this`base, this`items, this`spaceLeft, this`splitPoint, this`tops, heap
      ensures Shape() && (items == old(items) || fresh(items))
      ensures (forall i | 0 <= i < nextFree :: !IsGarbled(old(items)[i])) ==> Abs() == old(Abs())
      ensures heap.asked == old(heap.asked) + if nextFree + HEADROOM <= maxDepth then 1 else 0
      ensures ok <==> nextFree + HEADROOM <= maxDepth && heap.start(old(heap.asked)) > 0
      ensures ok ==> base == heap.start(old(heap.asked)) && spaceLeft >= HEADROOM
      ensures ok ==> items.Length == if maxDepth < 2 * nextFree then maxDepth else 2 * nextFree
      ensures !ok ==> base == old(base) && items == old(items) && spaceLeft == old(spaceLeft)
    {
      var size := nextFree;
      if maxDepth < size + HEADROOM {
        return false;
      }
      var newSize := 2 * size;
      if maxDepth < newSize {
        newSize := maxDepth;
      }
      var newBase := heap.Malloc();
      if newBase == 0 {
        return false;
      }
      MoveTo(newBase, newSize);
      return true;
    }

    /** The second half of it: copy everything to the new arena, and turn to that. */
    method MoveTo(newBase: nat, newSize: nat)
      requires Shape() && newBase > 0 && nextFree <= newSize
      modifies this`base, this`items, this`spaceLeft, this`splitPoint, this`tops
      ensures Shape() && fresh(items) && items.Length == newSize && base == newBase && spaceLeft == newSize - nextFree
      ensures (forall i | 0 <= i < nextFree :: !IsGarbled(old(items)[i])) ==> Abs() == old(Abs())
    {
      hide RelocItem, CellsOf, ItemPoints, RefsOf;
      ShapeHas();
      ghost var xs := items[..nextFree];
      var newItems := new Item[newSize](_ => State(0, 0, 0, Options(0)));
      CopyItems(newBase, newItems);
      ghost var xs' := newItems[..nextFree];
      RelocKeepsCells(base, newBase, xs, xs');
      var newTops := RelocTops(newBase);
      RelocSplit(base, newBase, nextFree, splitPoint);
      splitPoint := Reloc(base, newBase, splitPoint);
      items, base, tops := newItems, newBase, newTops;
      spaceLeft := newSize - nextFree;
      ShapeIs(xs');
    }

    lemma RelocSplit(from: nat, to: nat, n: nat, p: Address)
      requires from > 0 && to > 0 && Points(from, n, p)
      ensures Points(to, n, Reloc(from, to, p)) && Offset(to, Reloc(from, to, p)) == Offset(from, p)
    {
    }

    /** What a pointer to a state gives access to. */
    lemma StateAt(p: Address)
      requires Shape() && IsState(Abs().cells, Offset(base, p))
      ensures base <= p < base + nextFree && items[p - base].State?
      ensures Abs().cells[p - base] == CellOf(base, items[p - base])
      ensures Points(base, nextFree, items[p - base].pred)
    {
      assert ItemPoints(base, nextFree, items[p - base]);
    }

    /** `YY_RESERVE_GLRSTACK`. */
    method Reserve(heap: Heap) returns (ok: bool)
      requires Shape() && (nextFree >= HEADROOM || spaceLeft >= HEADROOM)
      modifies this`base, this`items, this`spaceLeft, this`splitPoint, this`tops, heap
      ensures Shape() && (items == old(items) || fresh(items))
      ensures items.Length >= old(items.Length) && (old(items.Length) <= maxDepth ==> items.Length <= maxDepth)
      ensures (forall i | IsState(old(Abs()).cells, i) :: !old(Abs()).cells[i].sem.Clobbered?) ==> Abs() == old(Abs())
      ensures ok ==> spaceLeft >= HEADROOM
      ensures Reservation(ok, Memory(items.Length, heap.asked)) ==
        Reserving(Supply(maxDepth, heap.start), old(Memory(items.Length, heap.asked)), nextFree)
    {
      ok := true;
      assert forall i | 0 <= i < nextFree :: IsGarbled(items[i]) ==>
        IsState(Abs().cells, i) && Abs().cells[i].sem.Clobbered?;
      if spaceLeft < HEADROOM {
        ok := Expand(heap);
      }
    }

    /** `yyglrShift`, up to the reservation of space. */
    method PushState(k: nat, lr: nat, posn: nat, v: Tree)
      requires Shape() && spaceLeft > 0 && k < |tops|
      modifies this`nextFree, this`spaceLeft, this`tops, items
      ensures Shape() && spaceLeft + 1 == old(spaceLeft)
      ensures Abs() == old(Abs()).(cells := WithState(old(Abs()).cells, lr, old(Abs()).tops[k], posn, Val(v)),
                                   tops := old(Abs()).tops[k := |old(Abs()).cells|])
    {
      var p := NewItem(State(lr, tops[k], posn, Value(v)));
      RefsUpdate(base, tops, k, p);
      tops := tops[k := p];
    }

    /** `yyaddDeferredAction`, up to the reservation of space. */
    method AddOption(p: Address, rhs: Address, rule: nat)
      requires Shape() && spaceLeft > 0 && IsState(Abs().cells, Offset(base, p)) && Points(base, nextFree, rhs)
      modifies this`nextFree, this`spaceLeft, items
      ensures Shape() && spaceLeft + 1 == old(spaceLeft)
      ensures Abs() == old(Abs()).(cells := WithOption(old(Abs()).cells, Offset(base, p), Offset(base, rhs), rule))
    {
      hide CellsOf, CellOf, WithOption, ItemPoints;
      StateAt(p);
      var i := p - base;
      var s := items[i].semantics;
      ghost var xs := items[..nextFree];
      var next := match s case Options(f) => f case _ => 0;
      OptionPoints(base, nextFree, items[i], rhs, rule);
      var q := NewItem(SemanticOption(rule, rhs, next));
      items[i] := items[i].(semantics := if s.Options? then Options(q) else Garbled(q));
      assert items[..nextFree] == (xs + [SemanticOption(rule, rhs, next)])[i := items[i]];
      OptionAdded(base, xs, i, rhs, rule, q);
    }

    /** Follow `n` predecessor links. */
    method Walk(p: Address, n: nat) returns (q: Address)
      requires Shape() && IsState(Abs().cells, Climb(Abs().cells, Offset(base, p), n))
      ensures Offset(base, q) == Climb(Abs().cells, Offset(base, p), n)
    {
      hide CellsOf;
      q := p;
      for i := 0 to n
        invariant Climb(Abs().cells, Offset(base, p), n) == Climb(Abs().cells, Offset(base, q), n - i)
      {
        StateAt(q);
        q := items[q - base].pred;
      }
    }

    /** The walk down one stack in search of a state to merge with; 0 if there is none. */
    method SearchStack(start: Address, yys: Address, yyposn: nat, lr: nat) returns (m: Address)
      requires Shape() && SplitOk(Abs()) && Abs().split != NULL
      requires IsState(Abs().cells, Offset(base, yys)) && IsState(Abs().cells, Offset(base, start))
      requires splitPoint <= start
      requires Descending(Abs().cells)
      ensures Offset(base, m) == MergeInto(Abs().cells, Offset(base, start), Offset(base, yys), Abs().split, yyposn, lr)
      ensures Points(base, nextFree, m)
    {
      hide CellsOf, SplitOk, Descending, ItemPoints;
      StateAt(yys);
      ChainAbove(Abs());
      StateAt(splitPoint);
      var p := start;
      while true
        invariant IsState(Abs().cells, Offset(base, p)) && splitPoint <= p
        invariant MergeInto(Abs().cells, Offset(base, start), Offset(base, yys), Abs().split, yyposn, lr) ==
          MergeInto(Abs().cells, Offset(base, p), Offset(base, yys), Abs().split, yyposn, lr)
        decreases p
      {
        StateAt(p);
        assert AboveSplit(Abs(), p - base);
        var s := items[p - base];
        if p == yys || p == splitPoint || s.posn < yyposn {
          return 0;
        }
        if s.lr == lr && s.pred == yys {
          return p;
        }
        p := s.pred;
      }
    }

    /** The loop over all other stacks in search of a state to merge with. */
    method Search(k: nat, yys: Address, yyposn: nat, lr: nat) returns (m: Address)
      requires Shape() && SplitOk(Abs()) && Abs().split != NULL
      requires IsState(Abs().cells, Offset(base, yys))
      requires forall j | 0 <= j < |tops| && Abs().tops[j] != NULL :: IsState(Abs().cells, Abs().tops[j])
      requires Descending(Abs().cells)
      ensures Offset(base, m) == MergeTarget(Abs().cells, Abs().tops, k, 0, Offset(base, yys), Abs().split, yyposn, lr)
      ensures Points(base, nextFree, m)
    {
      hide CellsOf, MergeInto, Descending, SplitOk, ItemPoints;
      for i := 0 to |tops|
        invariant MergeTarget(Abs().cells, Abs().tops, k, 0, Offset(base, yys), Abs().split, yyposn, lr) ==
          MergeTarget(Abs().cells, Abs().tops, k, i, Offset(base, yys), Abs().split, yyposn, lr)
      {
        if i != k && tops[i] != 0 {
          assert Abs().tops[i] == Offset(base, tops[i]);
          TopAbove(Abs(), i);
          StateAt(tops[i]);
          StateAt(splitPoint);
          m := SearchStack(tops[i], yys, yyposn, lr);
          if m != 0 {
            return;
          }
        }
      }
      m := 0;
    }

    /** `yyupdateSplit`. */
    method UpdateSplit(yys: Address)
      requires Shape() && IsState(Abs().cells, Offset(base, yys)) && splitPoint != 0
      modifies this`splitPoint
      ensures Shape() && Abs() == old(Abs()).(split := Lowered(old(Abs()).split, Offset(base, yys)))
    {
      StateAt(yys);
      if splitPoint != 0 && splitPoint > yys {
        splitPoint := yys;
      }
    }

    /** `yyLRgotoState`; the generator's gotos are not negative. */
    method GotoState(t: Tables, state: nat, lhs: nat) returns (lr: nat)
      requires t.Sized() && t.nTokens <= lhs < t.nTokens + |t.pgoto|
      ensures lr == Target(t, state, lhs)
    {
      var i := t.pgoto[lhs - t.nTokens] + state;
      if 0 <= i && i <= t.last && t.check[i] == state {
        i := t.table[i];
      } else {
        i := t.defgoto[lhs - t.nTokens];
      }
      lr := if i < 0 then 0 else i;
    }

    /** "Merging stack k": the reduction becomes one more option of state `m`, and the stack dies. */
    method MergeStack(k: nat, m: Address, yys0: Address, r: nat)
      requires Shape() && spaceLeft > 0 && k < |tops| && IsState(Abs().cells, Offset(base, m))
      requires Points(base, nextFree, yys0)
      modifies this`nextFree, this`spaceLeft, this`tops, items
      ensures Shape()
      ensures Abs() == old(Abs()).(cells := WithOption(old(Abs()).cells, Offset(base, m), Offset(base, yys0), r),
                                   tops := old(Abs()).tops[k := NULL])
    {
      AddOption(m, yys0, r);
      RefsUpdate(base, tops, k, 0);
      tops := tops[k := 0];
    }

    /** `yyglrShiftDefer` on top of `yys`, up to the reservation of space. */
    method PushDeferred(k: nat, yys: Address, lr: nat, yyposn: nat, yys0: Address, r: nat)
      requires Shape() && spaceLeft >= HEADROOM && k < |tops| && Points(base, nextFree, yys)
      requires Points(base, nextFree, yys0)
      modifies this`nextFree, this`spaceLeft, this`tops, items
      ensures Shape()
      ensures Abs() == var g := old(Abs());
        g.(cells := WithOption(WithState(g.cells, lr, Offset(base, yys), yyposn, Chain(NULL)), |g.cells|,
          Offset(base, yys0), r),
           tops := g.tops[k := |g.cells|])
    {
      var p := NewItem(State(lr, yys, yyposn, Options(0)));
      RefsUpdate(base, tops, k, p);
      tops := tops[k := p];
      AddOption(p, yys0, r);
    }

    /** The end of `yyglrReduce`: merge with an equal state of another stack, or push a new one. */
    method PushOrMerge(k: nat, yys: Address, lr: nat, yyposn: nat, yys0: Address, r: nat)
      requires Shape() && spaceLeft >= HEADROOM && k < |tops|
      requires SplitOk(Abs()) && Abs().split != NULL && Descending(Abs().cells)
      requires IsState(Abs().cells, Offset(base, yys)) && Points(base, nextFree, yys) && Points(base, nextFree, yys0)
      requires forall j | 0 <= j < |tops| && Abs().tops[j] != NULL :: IsState(Abs().cells, Abs().tops[j])
      modifies this`nextFree, this`spaceLeft, this`tops, items
      ensures Shape()
      ensures Abs() == GlrMachine.PushOrMerge(old(Abs()), k, Offset(base, yys), lr, yyposn, Offset(base, yys0), r)
    {
      hide CellsOf, Descending, SplitOk, MergeTarget;
      var m := Search(k, yys, yyposn, lr);
      if m != 0 {
        MergeStack(k, m, yys0, r);
      } else {
        PushDeferred(k, yys, lr, yyposn, yys0, r);
      }
    }

    /** Walk back over a right-hand side, lower the split point, and look up the goto. */
    method LeadBack(t: Tables, k: nat, r: nat) returns (yys: Address, lr: nat)
      requires Shape() && IsLive(Abs(), k) && splitPoint != 0
      requires t.Sized() && t.IsRule(r) && t.nTokens <= t.r1[r] < t.nTokens + |t.pgoto| && r < |t.r2|
      requires IsState(Abs().cells, Base(t, Abs(), k, r)) && Abs().cells[Base(t, Abs(), k, r)].lr < t.NStates()
      modifies this`splitPoint
      ensures Shape() && Offset(base, yys) == Base(t, old(Abs()), k, r) && Points(base, nextFree, yys)
      ensures Abs() == old(Abs()).(split := Lowered(old(Abs()).split, Base(t, old(Abs()), k, r)))
      ensures lr == Target(t, old(Abs()).cells[Base(t, old(Abs()), k, r)].lr, t.r1[r])
    {
      hide CellsOf, Target, t.Sized, Climb, ItemPoints;
      yys := Walk(tops[k], t.r2[r]);
      StateAt(yys);
      lr := GotoState(t, items[yys - base].lr, t.r1[r]);
      UpdateSplit(yys);
    }

    /** `yyglrReduce` in nondeterministic operation for a rule that is not immediate, up to the
        reservation of space. */
    method ReduceLater(t: Tables, ghost c: Certificate, ghost text: seq<nat>, k: nat, r: nat)
      requires Shape() && spaceLeft >= HEADROOM
      requires Inv(t, c, text, Abs()) && Abs().split != NULL && IsLive(Abs(), k)
      requires RulesMatch(t, c) && Abs().cells[Abs().tops[k]].lr < t.NStates()
      requires ReductionSound(t, c, Abs().cells[Abs().tops[k]].lr, r)
      modifies this`nextFree, this`spaceLeft, this`splitPoint, this`tops, items
      ensures Shape()
      ensures IsState(old(Abs()).cells, Base(t, old(Abs()), k, r))
      ensures old(Abs()).cells[Base(t, old(Abs()), k, r)].lr < t.NStates()
      ensures Abs() == ReduceDeferred(t, old(Abs()), k, r)
    {
      hide CellsOf, Inv, Checked, Descending, SplitOk, Target, t.Sized, RulesMatch, ReductionSound, Climb, ItemPoints,
        GlrMachine.PushOrMerge, Base;
      ReductionFacts(t, c, text, Abs(), k, r);
      var yys0 := tops[k];
      StateAt(yys0);
      var yys, lr := LeadBack(t, k, r);
      StateAt(yys);
      PushOrMerge(k, yys, lr, items[yys0 - base].posn, yys0, r);
    }

    /** The standard case of `yydoAction`: pop `n` items of a single contiguous stack and return
        their values. */
    method PopValues(n: nat) returns (kids: seq<Tree>)
      requires Shape() && Abs().split == NULL && |tops| == 1 && Contiguous(Abs().cells, nextFree - 1) && n < nextFree
      modifies this`nextFree, this`spaceLeft, this`tops
      ensures Shape() && nextFree == old(nextFree) - n && spaceLeft == old(spaceLeft) + n
      ensures Abs() == old(Abs()).(cells := old(Abs()).cells[..old(nextFree) - n], tops := [old(nextFree) - n - 1])
      ensures kids == TopValues(old(Abs()).cells, n)
    {
      var rhs := items[nextFree - n..nextFree];
      kids := seq(n, j requires 0 <= j < |rhs| => ValueOf(rhs[j]));
      forall j | 0 <= j < n
        ensures kids[j] == TopValues(Abs().cells, n)[j]
      {
        assert Abs().cells[nextFree - n + j] == CellOf(base, items[nextFree - n + j]);
      }
      assert kids == TopValues(Abs().cells, n);
      forall i | 0 <= i < nextFree - n
        ensures ItemPoints(base, nextFree - n, items[i])
      {
        assert IsState(Abs().cells, i) && Abs().cells[i] == CellOf(base, items[i]);
      }
      nextFree := nextFree - n;
      spaceLeft := spaceLeft + n;
      tops := [base + nextFree - 1];
      assert Abs().cells == old(Abs()).cells[..nextFree];
    }

    /** `yyglrReduce` in deterministic operation, up to the reservation of space. */
    method ReduceAtOnce(t: Tables, ghost c: Certificate, ghost text: seq<nat>, r: nat)
      requires Shape() && spaceLeft > 0
      requires Inv(t, c, text, Abs()) && Abs().split == NULL
      requires RulesMatch(t, c) && Abs().cells[nextFree - 1].lr < t.NStates()
      requires ReductionSound(t, c, Abs().cells[nextFree - 1].lr, r)
      modifies this`nextFree, this`spaceLeft, this`tops, items
      ensures Shape() && nextFree + spaceLeft == old(nextFree + spaceLeft)
      ensures t.r2[r] < |old(Abs()).cells|
      ensures var b := old(Abs()).cells[|old(Abs()).cells| - 1 - t.r2[r]]; b.StateCell? && b.lr < t.NStates()
      ensures Abs() == GlrMachine.ReduceNow(t, old(Abs()), r)
    {
      hide CellsOf, Inv, Checked, RulesMatch, TopValues, Target, ItemPoints, t.Sized, ReductionSound,
        GlrMachine.ReduceNow, Contiguous, WithState;
      ghost var g := Abs();
      NowFacts(t, c, text, g, r);
      var n := t.r2[r];
      var yyposn := posn;
      var kids := PopValues(n);
      StateAt(base + nextFree - 1);
      var lr := GotoState(t, items[nextFree - 1].lr, t.r1[r]);
      PushState(0, lr, yyposn, Node(r, kids));
      NowIs(t, g, r);
    }

    /** `yysplitStack`; the result is the number of the new stack. */
    method Split(k: nat) returns (added: nat)
      requires Shape() && IsLive(Abs(), k)
      modifies this`splitPoint, this`tops
      ensures Shape() && Abs() == SplitStack(old(Abs()), k) && added == |old(tops)|
    {
      if splitPoint == 0 {
        splitPoint := tops[k];
      }
      added := |tops|;
      tops := tops + [tops[k]];
      assert Abs().tops == old(Abs()).tops + [old(Abs()).tops[k]];
    }

    /** `yymarkStackDeleted`. */
    method MarkDeleted(k: nat)
      requires Shape() && k < |tops|
      modifies this`tops
      ensures Shape() && Abs() == Kill(old(Abs()), k)
    {
      RefsUpdate(base, tops, k, 0);
      tops := tops[k := 0];
    }

    /** `yyremoveDeletes`. */
    method RemoveDeletes()
      requires Shape()
      modifies this`tops
      ensures Shape() && Abs() == old(Abs()).(tops := Survivors(old(Abs()).tops))
    {
      hide Survivors, CellsOf, ItemPoints;
      ghost var refs := Abs().tops;
      SurvivorsStart(refs);
      var size := |tops|;
      var i, j := 0, 0;
      while j < size
        invariant 0 <= j <= i <= |refs| == |tops| && size == |refs| - (i - j)
        invariant tops[i..] == old(tops)[i..]
        invariant RefsOf(base, tops)[..j] == Survivors(refs[..i])
        invariant forall k | 0 <= k < |tops| :: Points(base, nextFree, tops[k])
        decreases |refs| - i
      {
        assert tops[i] == tops[i..][0] == old(tops)[i];
        SurvivorsNext(refs, i);
        assert refs[i] == Offset(base, tops[i]);
        assert Points(base, nextFree, tops[i]);
        ghost var kept := RefsOf(base, tops)[..j];
        ghost var rest := tops[i..][1..];
        if tops[i] == 0 {
          size := size - 1;
        } else {
          RefsUpdate(base, tops, j, tops[i]);
          tops := tops[j := tops[i]];
          assert RefsOf(base, tops)[..j + 1] == kept + [refs[i]];
          j := j + 1;
        }
        i := i + 1;
        assert tops[i..] == rest;
      }
      assert refs[..i] == refs;
      assert RefsOf(base, tops[..j]) == RefsOf(base, tops)[..j];
      tops := tops[..j];
    }

    /** The first loop of `yycompressStack`: turn the links above the split point round; the result
        is the lowest state above it, or 0. */
    method TurnLinks(ghost before: Items, ghost ix: seq<Ref>) returns (r: Address)
      requires Ladder(base, splitPoint - base, before, ix) && items[..] == before && |tops| == 1
      requires tops[0] == base + Rung(splitPoint - base, ix, |ix| - 1)
      modifies items
      ensures items[..] == TurnedFrom(base, before, ix, 0)
      ensures r == if ix == [] then 0 else base + ix[0]
    {
      hide Ladder, TurnedFrom;
      ghost var m: nat := |ix|;
      TurnStart(base, splitPoint - base, before, ix);
      LadderStep(base, splitPoint - base, before, ix, m);
      var p := tops[0];
      var q := items[p - base].pred;
      r := 0;
      while p != splitPoint
        invariant m <= |ix|
        invariant |before| == items.Length
        invariant p == base + Rung(splitPoint - base, ix, m - 1) && 0 <= p - base < items.Length
        invariant before[p - base].State? && q == before[p - base].pred
        invariant r == if m == |ix| then 0 else base + ix[m]
        invariant items[..] == TurnedFrom(base, before, ix, m)
        decreases m
      {
        LadderStep(base, splitPoint - base, before, ix, m);
        TurnStep(base, splitPoint - base, before, ix, m);
        items[p - base] := items[p - base].(pred := r);
        r := p;
        p := q;
        m := m - 1;
        LadderStep(base, splitPoint - base, before, ix, m);
        q := items[p - base].pred;
      }
      LadderStep(base, splitPoint - base, before, ix, m);
    }

    /** The second loop: copy the states down over whatever lies between, lowest first.  No state is
        overwritten before it has been copied. */
    method CopyDown(start: Address, ghost before: Items, ghost ix: seq<Ref>)
      requires nextFree > 0 && Ladder(base, nextFree - 1, before, ix) && items[..] == TurnedFrom(base, before, ix, 0)
      requires start == if ix == [] then 0 else base + ix[0]
      requires nextFree + spaceLeft == items.Length
      modifies items, this`nextFree, this`spaceLeft, this`tops
      ensures nextFree == old(nextFree) + |ix| <= items.Length && nextFree + spaceLeft == items.Length
      ensures ix != [] ==> tops == [base + nextFree - 1]
      ensures ix == [] ==> tops == old(tops)
      ensures items[..] == CopiedTo(base, before, ix, old(nextFree), |ix|)
    {
      hide Ladder, TurnedFrom, CopiedTo;
      var r := start;
      ghost var s: nat := 0;
      ghost var n0 := nextFree;
      CopyStart(base, before, ix, n0);
      while r != 0
        invariant s <= |ix| && nextFree == n0 + s && nextFree + spaceLeft == items.Length
        invariant r == if s == |ix| then 0 else base + ix[s]
        invariant tops == if s == 0 then old(tops) else [base + nextFree - 1]
        invariant items[..] == CopiedTo(base, before, ix, n0, s)
        decreases |ix| - s
      {
        CopyStep(base, before, ix, n0, s);
        items[nextFree] := items[r - base];
        r := items[r - base].pred;
        items[nextFree] := items[nextFree].(pred := base + nextFree - 1);
        tops := [base + nextFree];
        nextFree := nextFree + 1;
        spaceLeft := spaceLeft - 1;
        s := s + 1;
      }
      CopyStep(base, before, ix, n0, s);
    }

    /** `yycompressStack`, where the code calls it: the values of the stack have been resolved, and before that
        the invariant held, of the configuration `g0`. It holds again afterwards. */
    method Compress(ghost t: Tables, ghost c: Certificate, ghost text: seq<nat>, ghost g0: Glr)
      requires Shape() && Inv(t, c, text, g0) && g0.split != NULL && |g0.tops| == 1 && IsLive(g0, 0)
      requires Abs() == g0.(cells := Abs().cells) && GlrReturn.Resolution(t, c, text, g0, Abs().cells)
      modifies items, this`nextFree, this`spaceLeft, this`splitPoint, this`tops
      ensures Shape() && nextFree + spaceLeft == old(nextFree + spaceLeft) && nextFree <= old(nextFree)
      ensures Abs() == GlrCompress.Compress(old(Abs())) && Inv(t, c, text, Abs()) && Abs().split == NULL
      ensures |Abs().tops| == 1 && Path(Abs().cells, Abs().tops[0]) == Path(g0.cells, g0.tops[0])
      ensures Contents(Abs().cells, Abs().tops[0]) == Contents(old(Abs()).cells, old(Abs()).tops[0])
    {
      hide CellsOf, Inv, Ladder, TurnedFrom, CopiedTo, ItemPoints, Above, Rungs, GlrReturn.Resolution,
        GlrCompress.Compress, SplitOk, Descending, Contiguous, RefsOf, Shape, Path, Contents;
      ShapeHas();
      ghost var g := Abs();
      ghost var before := items[..];
      ghost var ix := Rungs(g.cells, g.tops[0], g.split);
      CompressFacts(t, c, text, g0, g);
      LadderOf(g, base, nextFree, before, g.tops[0]);
      BottomItem(g, base, nextFree, before);
      CopiedAt(base, before, ix, g.split + 1, |ix|, 0) by { RungsFit(g, base, before, ix, g.tops[0]); }
      RungsFit(g, base, before, ix, g.tops[0]);
      var r := TurnLinks(before, ix);
      var split := splitPoint - base;
      spaceLeft := spaceLeft + nextFree;
      nextFree := split + 1;
      spaceLeft := spaceLeft - nextFree;
      splitPoint := 0;
      CopyDown(r, before, ix);
      Compressed(g, base, before, ix, items[..], nextFree);
      assert items[..][..nextFree] == items[..nextFree];
      LinearPoints(base, items[..nextFree], GlrCompress.Compress(g).cells);
      TopsAfter(g, base, tops, nextFree, ix);
      ShapeIs(items[..nextFree]);
    }
  }

  /** What resolution leaves the code that compresses the stack. */
  lemma CompressFacts(t: Tables, c: Certificate, text: seq<nat>, g0: Glr, g: Glr)
    requires Inv(t, c, text, g0) && g0.split != NULL && |g0.tops| == 1 && IsLive(g0, 0)
    requires g == g0.(cells := g.cells) && GlrReturn.Resolution(t, c, text, g0, g.cells)
    ensures SplitOk(g) && Descending(g.cells) && g.split <= g.tops[0] && IsState(g.cells, g.split)
    ensures IsState(g.cells, g.tops[0])
    ensures Inv(t, c, text, GlrCompress.Compress(g))
    ensures var g' := GlrCompress.Compress(g);
      && g'.split == NULL && g'.pos == g.pos && Contiguous(g'.cells, |g'.cells| - 1)
      && |g'.tops| == 1 && Path(g'.cells, g'.tops[0]) == Path(g0.cells, g0.tops[0])
      && Contents(g'.cells, g'.tops[0]) == Contents(g.cells, g.tops[0])
  {
    hide Forest, Path, Contents;
    CoreForest(t, c, text, g0);
    GlrReturn.ReturnKeeps(t, c, text, g0, g.cells);
    GlrReturn.ResolvedShape(t, c, text, g0, g.cells);
    CompressValues(g);
  }

  /** The rungs of the configuration are a ladder of items. */
  lemma {:induction false} LadderOf(g: Glr, base: nat, n: nat, before: Items, top: Ref)
    requires base > 0 && n <= |before| && g.cells == CellsOf(base, before[..n])
    requires SplitOk(g) && g.split != NULL && Descending(g.cells) && IsState(g.cells, top) && g.split <= top
    ensures var ix := Rungs(g.cells, top, g.split);
      && Ladder(base, g.split, before, ix)
      && top == Rung(g.split, ix, |ix| - 1)
  {
    hide Descending, SplitOk, Rungs, RungOk, CellsOf;
    SplitState(g);
    RungsRise(g, top);
    var ix := Rungs(g.cells, top, g.split);
    forall j | 0 <= j < |ix|
      ensures RungOk(base, g.split, before, ix, j)
    {
      RungItem(g, base, n, before, ix, j);
    }
    ItemOfCell(base, n, before, g.cells, g.split);
  }

  lemma RungItem(g: Glr, base: nat, n: nat, before: Items, ix: seq<Ref>, j: nat)
    requires base > 0 && n <= |before| && g.cells == CellsOf(base, before[..n])
    requires j < |ix| && 0 <= g.split < ix[j] && IsState(g.cells, ix[j])
    requires g.cells[ix[j]].pred == Rung(g.split, ix, j - 1) && (j > 0 ==> ix[j - 1] > g.split)
    ensures RungOk(base, g.split, before, ix, j)
  {
    hide CellsOf;
    ItemOfCell(base, n, before, g.cells, ix[j]);
  }

  lemma ItemOfCell(base: nat, n: nat, before: Items, cells: Cells, i: Ref)
    requires n <= |before| && cells == CellsOf(base, before[..n]) && IsState(cells, i)
    ensures i < n && cells[i] == CellOf(base, before[i]) && before[i].State?
  {
    assert before[..n][i] == before[i];
  }

  lemma SplitState(g: Glr)
    requires SplitOk(g) && g.split != NULL
    ensures IsState(g.cells, g.split)
  {
  }

  /** The compressed arena cell by cell. */
  lemma CompressAt(g: Glr, i: Ref)
    requires |g.tops| == 1 && IsState(g.cells, g.split)
    ensures var ix := Rungs(g.cells, g.tops[0], g.split); var cells := GlrCompress.Compress(g).cells;
      && |cells| == g.split + 1 + |ix|
      && (0 <= i <= g.split ==> cells[i] == g.cells[i])
      && (g.split < i < |cells| ==>
          IsState(g.cells, ix[i - g.split - 1]) && cells[i] == g.cells[ix[i - g.split - 1]].(pred := i - 1))
  {
    hide Above, Rungs;
  }

  /** What the two loops leave behind is the compressed configuration. */
  lemma {:induction false} Compressed(g: Glr, base: nat, before: Items, ix: seq<Ref>, after: Items, n: nat)
    requires base > 0 && IsState(g.cells, g.split) && |g.tops| == 1
    requires ix == Rungs(g.cells, g.tops[0], g.split) && Ladder(base, g.split, before, ix)
    requires |g.cells| <= |before| && g.cells == CellsOf(base, before[..|g.cells|])
    requires n == g.split + 1 + |ix| <= |before| && after == CopiedTo(base, before, ix, g.split + 1, |ix|)
    ensures CellsOf(base, after[..n]) == GlrCompress.Compress(g).cells
  {
    hide Ladder, CopiedTo, Rungs, Above, GlrCompress.Compress;
    var cells := GlrCompress.Compress(g).cells;
    CompressAt(g, 0);
    forall i | 0 <= i < n
      ensures CellOf(base, after[i]) == cells[i]
    {
      CompressedCell(g, base, before, ix, after, i);
    }
    assert CellsOf(base, after[..n]) == cells;
  }

  lemma {:induction false} CompressedCell(g: Glr, base: nat, before: Items, ix: seq<Ref>, after: Items, i: nat)
    requires base > 0 && IsState(g.cells, g.split) && |g.tops| == 1
    requires ix == Rungs(g.cells, g.tops[0], g.split) && Ladder(base, g.split, before, ix)
    requires |g.cells| <= |before| && g.cells == CellsOf(base, before[..|g.cells|])
    requires i < g.split + 1 + |ix| <= |before| && after == CopiedTo(base, before, ix, g.split + 1, |ix|)
    ensures i < |GlrCompress.Compress(g).cells| && CellOf(base, after[i]) == GlrCompress.Compress(g).cells[i]
  {
    hide Ladder, CopiedTo, Rungs, Above, GlrCompress.Compress;
    CompressAt(g, i);
    CopiedAt(base, before, ix, g.split + 1, |ix|, i);
    var x := if i <= g.split then i else ix[i - g.split - 1];
    assert g.cells[x] == CellOf(base, before[..|g.cells|][x]);
  }

  lemma BottomItem(g: Glr, base: nat, n: nat, before: Items)
    requires base > 0 && n <= |before| && g.cells == CellsOf(base, before[..n])
    requires forall i | 0 <= i < n :: ItemPoints(base, n, before[i])
    requires SplitOk(g) && g.split != NULL
    ensures n > 0 && before[0].State? && before[0].pred == 0
  {
    assert IsState(g.cells, 0) && g.cells[0] == CellOf(base, before[..n][0]);
    assert ItemPoints(base, n, before[0]);
  }

  lemma RungsFit(g: Glr, base: nat, before: Items, ix: seq<Ref>, top: Ref)
    requires g.split >= 0 && Ladder(base, g.split, before, ix) && top == Rung(g.split, ix, |ix| - 1)
    ensures g.split + |ix| <= top < |before|
  {
    if ix != [] {
      assert RungOk(base, g.split, before, ix, |ix| - 1) && RungOk(base, g.split, before, ix, 0);
      RungsHigh(ix, g.split, |ix| - 1);
    }
  }

  /** The pointers of a contiguous stack stay within it. */
  lemma LinearPoints(base: nat, xs: Items, cells: Cells)
    requires cells == CellsOf(base, xs) && Contiguous(cells, |cells| - 1)
    requires |xs| > 0 ==> xs[0].State? && xs[0].pred == 0
    ensures forall i | 0 <= i < |xs| :: ItemPoints(base, |xs|, xs[i])
  {
    forall i | 0 <= i < |xs|
      ensures ItemPoints(base, |xs|, xs[i])
    {
      assert IsState(cells, i) && cells[i] == CellOf(base, xs[i]);
    }
  }

  lemma TopsAfter(g: Glr, base: nat, tops: seq<Address>, n: nat, ix: seq<Ref>)
    requires base > 0 && IsState(g.cells, g.split) && |g.tops| == 1 && ix == Rungs(g.cells, g.tops[0], g.split)
    requires n == g.split + 1 + |ix| && tops == [base + n - 1]
    ensures RefsOf(base, tops) == GlrCompress.Compress(g).tops
    ensures Points(base, n, tops[0])
  {
    hide Above, Rungs;
  }

  /** Rung number `j`; number -1 is the split point. */
  function Rung(split: int, ix: seq<Ref>, j: int): Ref
    requires -1 <= j < |ix|
  {
    if j == -1 then split else ix[j]
  }

  /** The states above the split point on a chain, each linked to the rung below it. */
  ghost predicate RungOk(base: nat, split: int, before: Items, ix: seq<Ref>, j: int)
    requires 0 <= j < |ix|
  {
    && 0 <= split < ix[j] < |before| && before[ix[j]].State?
    && before[ix[j]].pred == base + Rung(split, ix, j - 1)
  }

  ghost predicate Ladder(base: nat, split: int, before: Items, ix: seq<Ref>) {
    && base > 0 && 0 <= split < |before| && before[split].State?
    && (forall j | 0 <= j < |ix| :: RungOk(base, split, before, ix, j))
    && (forall j, k | 0 <= j < k < |ix| :: ix[j] < ix[k])
  }

  lemma LadderStep(base: nat, split: int, before: Items, ix: seq<Ref>, m: nat)
    requires Ladder(base, split, before, ix) && m <= |ix|
    ensures base > 0
    ensures var i := Rung(split, ix, m - 1);
      && 0 <= i < |before| && before[i].State? && (i == split <==> m == 0)
      && (m > 0 ==> before[i].pred == base + Rung(split, ix, m - 2))
      && TurnedFrom(base, before, ix, m)[i] == before[i]
    decreases |ix| - m
  {
    if m > 0 { assert RungOk(base, split, before, ix, m - 1); }
    TurnedBelow(base, split, before, ix, m, Rung(split, ix, m - 1));
  }

  /** The arena with the links of the rungs from number `m` on turned round. */
  ghost function TurnedFrom(base: nat, before: Items, ix: seq<Ref>, m: nat): (xs: Items)
    ensures |xs| == |before|
    decreases |ix| - m
  {
    if m >= |ix| || !(0 <= ix[m] < |before|) || !before[ix[m]].State? then before
    else TurnedFrom(base, before, ix, m + 1)
           [ix[m] := before[ix[m]].(pred := if m + 1 < |ix| then base + ix[m + 1] else 0)]
  }

  lemma {:induction false} TurnedBelow(base: nat, split: int, before: Items, ix: seq<Ref>, m: nat, i: Ref)
    requires Ladder(base, split, before, ix) && m <= |ix| && 0 <= i < |before| && i <= Rung(split, ix, m - 1)
    ensures TurnedFrom(base, before, ix, m)[i] == before[i]
    decreases |ix| - m
  {
    if m < |ix| {
      assert RungOk(base, split, before, ix, m);
      TurnedBelow(base, split, before, ix, m + 1, i);
    }
  }

  lemma TurnStart(base: nat, split: int, before: Items, ix: seq<Ref>)
    ensures TurnedFrom(base, before, ix, |ix|) == before
  {
  }

  lemma TurnStep(base: nat, split: int, before: Items, ix: seq<Ref>, m: nat)
    requires Ladder(base, split, before, ix) && 0 < m <= |ix|
    ensures 0 <= ix[m - 1] < |before| && before[ix[m - 1]].State?
    ensures TurnedFrom(base, before, ix, m - 1) ==
      TurnedFrom(base, before, ix, m)[ix[m - 1] := before[ix[m - 1]].(pred := if m < |ix| then base + ix[m] else 0)]
  {
    assert RungOk(base, split, before, ix, m - 1);
  }

  /** The arena after the lowest `s` rungs have been copied down to the cells from `n0` on. */
  ghost function CopiedTo(base: nat, before: Items, ix: seq<Ref>, n0: nat, s: nat): (xs: Items)
    requires s <= |ix|
    ensures |xs| == |before|
  {
    if s == 0 then TurnedFrom(base, before, ix, 0)
    else
      var xs := CopiedTo(base, before, ix, n0, s - 1);
      var i := ix[s - 1];
      if 0 <= i < |before| && before[i].State? && n0 + s - 1 < |xs| then
        xs[n0 + s - 1 := before[i].(pred := base + n0 + s - 2)]
      else xs
  }

  lemma CopyStart(base: nat, before: Items, ix: seq<Ref>, n0: nat)
    ensures CopiedTo(base, before, ix, n0, 0) == TurnedFrom(base, before, ix, 0)
  {
  }

  lemma {:induction false} TurnedAt(base: nat, split: int, before: Items, ix: seq<Ref>, m: nat, j: nat)
    requires Ladder(base, split, before, ix) && m <= j < |ix|
    ensures 0 <= ix[j] < |before| && before[ix[j]].State?
    ensures TurnedFrom(base, before, ix, m)[ix[j]] ==
      before[ix[j]].(pred := if j + 1 < |ix| then base + ix[j + 1] else 0)
    decreases |ix| - m
  {
    assert RungOk(base, split, before, ix, m);
    if m < j { TurnedAt(base, split, before, ix, m + 1, j); }
  }

  /** Copying disturbs nothing above the cells written. */
  lemma {:induction false} CopiedAbove(base: nat, before: Items, ix: seq<Ref>, n0: nat, s: nat, i: nat)
    requires s <= |ix| && n0 + s <= i < |before|
    ensures CopiedTo(base, before, ix, n0, s)[i] == TurnedFrom(base, before, ix, 0)[i]
    decreases s
  {
    if s > 0 { CopiedAbove(base, before, ix, n0, s - 1, i); }
  }

  lemma CopyStep(base: nat, before: Items, ix: seq<Ref>, n0: nat, s: nat)
    requires n0 > 0 && Ladder(base, n0 - 1, before, ix) && s <= |ix|
    ensures base > 0
    ensures s < |ix| ==>
      && n0 + s <= ix[s] < |before|
      && before[ix[s]].State?
      && CopiedTo(base, before, ix, n0, s)[ix[s]] ==
          before[ix[s]].(pred := if s + 1 < |ix| then base + ix[s + 1] else 0)
      && CopiedTo(base, before, ix, n0, s + 1) ==
          CopiedTo(base, before, ix, n0, s)[n0 + s := before[ix[s]].(pred := base + n0 + s - 1)]
  {
    if s < |ix| {
      assert RungOk(base, n0 - 1, before, ix, 0) && RungOk(base, n0 - 1, before, ix, s);
      RungsHigh(ix, n0 - 1, s);
      CopiedAbove(base, before, ix, n0, s, ix[s]);
      TurnedAt(base, n0 - 1, before, ix, 0, s);
    }
  }

  /** The cells copied, and those below them, when all rungs have been copied. */
  lemma {:induction false} CopiedAt(base: nat, before: Items, ix: seq<Ref>, n0: nat, s: nat, i: nat)
    requires n0 > 0 && Ladder(base, n0 - 1, before, ix) && s <= |ix| && i < n0 + s <= |before|
    ensures i < n0 ==> CopiedTo(base, before, ix, n0, s)[i] == before[i]
    ensures i >= n0 ==> var x := ix[i - n0];
      0 <= x < |before| && before[x].State? && CopiedTo(base, before, ix, n0, s)[i] == before[x].(pred := base + i - 1)
    decreases s
  {
    if s > 0 {
      assert RungOk(base, n0 - 1, before, ix, s - 1);
      if i < n0 + s - 1 { CopiedAt(base, before, ix, n0, s - 1, i); }
    } else {
      TurnedBelow(base, n0 - 1, before, ix, 0, i);
    }
  }

  lemma SurvivorsStart(refs: seq<Ref>)
    ensures Survivors(refs[..0]) == []
  {
  }

  lemma SurvivorsNext(refs: seq<Ref>, i: nat)
    requires i < |refs|
    ensures Survivors(refs[..i + 1]) == Survivors(refs[..i]) + (if refs[i] == NULL then [] else [refs[i]])
  {
    assert refs[..i + 1][..i] == refs[..i];
  }

  /** A reduction in deterministic operation: pop, then push. */
  lemma NowIs(t: Tables, g: Glr, r: nat)
    requires t.Sized() && t.IsRule(r) && t.r2[r] < |g.cells| && |g.tops| == 1
    requires var b := g.cells[|g.cells| - 1 - t.r2[r]]; b.StateCell? && b.lr < t.NStates()
    ensures var below := g.cells[..|g.cells| - t.r2[r]];
      GlrMachine.ReduceNow(t, g, r) == g.(
        cells := WithState(below, Target(t, below[|below| - 1].lr, t.r1[r]), |below| - 1, g.pos,
          Val(Node(r, TopValues(g.cells, t.r2[r])))),
        tops := [|below|])
  {
  }

  lemma NowFacts(t: Tables, c: Certificate, text: seq<nat>, g: Glr, r: nat)
    requires Inv(t, c, text, g) && g.split == NULL
    requires RulesMatch(t, c) && g.cells[|g.cells| - 1].lr < t.NStates()
    requires ReductionSound(t, c, g.cells[|g.cells| - 1].lr, r)
    ensures t.Sized() && t.IsRule(r) && t.nTokens <= t.r1[r] < t.nTokens + |t.pgoto| && r < |t.r2|
    ensures t.r2[r] < |g.cells| && IsState(g.cells, |g.cells| - 1 - t.r2[r])
    ensures g.cells[|g.cells| - 1 - t.r2[r]].lr < t.NStates()
    ensures |g.tops| == 1 && Contiguous(g.cells, |g.cells| - 1)
  {
    hide Forest, Checked, TopValues;
    ReduceNowKeeps(t, c, text, g, r);
  }

  lemma TopAbove(g: Glr, i: nat)
    requires SplitOk(g) && g.split != NULL && i < |g.tops| && g.tops[i] != NULL
    ensures IsState(g.cells, g.split) && g.split <= g.tops[i]
  {
  }

  /** What a walk down from state `j` finds: the split point, or a state that is still above it. */
  ghost predicate AboveSplit(g: Glr, j: Ref) {
    IsState(g.cells, j) && g.split < j ==> g.split <= g.cells[j].pred < j && IsState(g.cells, g.cells[j].pred)
  }

  lemma ChainAbove(g: Glr)
    requires SplitOk(g) && g.split != NULL && Descending(g.cells)
    ensures IsState(g.cells, g.split)
    ensures forall j :: AboveSplit(g, j)
  {
    forall j
      ensures AboveSplit(g, j)
    {
      if IsState(g.cells, j) && g.split < j { assert StepsDown(g.cells, j); }
    }
  }

  /** What the invariant says about a reduction, for the code that carries it out. */
  lemma ReductionFacts(t: Tables, c: Certificate, text: seq<nat>, g: Glr, k: nat, r: nat)
    requires Inv(t, c, text, g) && g.split != NULL && IsLive(g, k)
    requires RulesMatch(t, c) && g.cells[g.tops[k]].lr < t.NStates()
    requires ReductionSound(t, c, g.cells[g.tops[k]].lr, r)
    ensures t.Sized() && t.IsRule(r) && t.nTokens <= t.r1[r] < t.nTokens + |t.pgoto| && r < |t.r2|
    ensures IsState(g.cells, Base(t, g, k, r)) && g.cells[Base(t, g, k, r)].lr < t.NStates()
    ensures Descending(g.cells) && SplitOk(g.(split := Lowered(g.split, Base(t, g, k, r))))
    ensures Lowered(g.split, Base(t, g, k, r)) != NULL
    ensures forall j | 0 <= j < |g.tops| && g.tops[j] != NULL :: IsState(g.cells, g.tops[j])
  {
    hide Forest, Checked, Contiguous, Descending;
    ReduceDeferredKeeps(t, c, text, g, k, r);
    CoreForest(t, c, text, g);
    LoweredSplit(g, Base(t, g, k, r));
  }
}
