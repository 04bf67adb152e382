/** What a scan of an argument vector by `getopt` in its permuting mode comes to, as functions of
    the original vector: which elements are options, which are not, and what the calls return. */
module GetoptSpec {

  datatype Option<T> = None | Some(value: T)

  /** One return of `getopt`: the character, `optarg`, and `optopt` if the call sets it. */
  datatype Ret = Ret(code: char, arg: Option<string>, bad: Option<char>)

  /** The elements before the first non-option in the final vector, the non-options, what follows a "--", the
      returns before the final -1, and those that come again and again after them if there is no final -1. */
  datatype Plan =
    Plan(opts: seq<string>, nonopts: seq<string>, tail: seq<string>, results: seq<Ret>, again: seq<Ret>)
  {
    predicate Endless() { again != [] }
  }

  function CharAt(s: string, i: nat): char {
    if i < |s| then s[i] else '\0'
  }

  /** `strchr`, as an index; the length of the string if the character is absent. */
  function Find(s: string, c: char): (i: nat)
    ensures i <= |s| && (i < |s| ==> s[i] == c)
    ensures forall j | 0 <= j < i :: s[j] != c
  {
    if s == "" || s[0] == c then 0 else 1 + Find(s[1..], c)
  }

  datatype Kind = Unknown | Flag | Optional | Required | LongW

  /** What the option string says of a character. */
  function KindOf(optstring: string, c: char): Kind {
    var i := Find(optstring, c);
    if i == |optstring| || c == ':' || c == ';' then Unknown
    else if c == 'W' && CharAt(optstring, i + 1) == ';' then LongW
    else if CharAt(optstring, i + 1) != ':' then Flag
    else if CharAt(optstring, i + 2) == ':' then Optional
    else Required
  }

  predicate IsNonOption(s: string) {
    CharAt(s, 0) != '-' || |s| < 2
  }

  function MissingCode(optstring: string): char {
    if CharAt(optstring, 0) == ':' then ':' else '?'
  }

  function Returning(r: Ret, p: Plan): Plan {
    p.(results := [r] + p.results)
  }

  /** The returns for the characters of an element up to a long W. */
  function Returns(optstring: string, rest: string): (rs: seq<Ret>)
    ensures rest != "" ==> rs != []
  {
    if rest == "" then []
    else
      match KindOf(optstring, rest[0])
      case Unknown => [Ret('?', None, Some(rest[0]))] + Returns(optstring, rest[1..])
      case Flag => [Ret(rest[0], None, None)] + Returns(optstring, rest[1..])
      case _ => [Ret('W', None, None)]
  }

  /** The scan from element `i` on. */
  function PlanFrom(optstring: string, a: seq<string>, i: nat): Plan
    decreases |a| - i, 1, 0, 0
  {
    if i >= |a| then Plan([], [], [], [], [])
    else if IsNonOption(a[i]) then
      var p := PlanFrom(optstring, a, i + 1);
      p.(nonopts := [a[i]] + p.nonopts)
    else if a[i] == "--" then Plan(["--"], [], a[i + 1..], [], [])
    else Cluster(optstring, a, i, a[i][1..])
  }

  /** The scan from element `i` on when its last characters `rest` are all that is left of it. */
  function Cluster(optstring: string, a: seq<string>, i: nat, rest: string): Plan
    requires i < |a| && |a[i]| > 1 && rest != ""
    decreases |a| - i, 0, |rest|, 0
  {
    var c := rest[0];
    var more := rest[1..];
    match KindOf(optstring, c)
    case Unknown => Returning(Ret('?', None, Some(c)), Resume(optstring, a, i, more))
    case Flag => Returning(Ret(c, None, None), Resume(optstring, a, i, more))
    case LongW =>
      if more == "" then Returning(Ret('W', None, None), Resume(optstring, a, i, ""))
      else Plan([], [], [], [Ret('W', None, None)], Returns(optstring, a[i][1..]))
    case Optional =>
      Returning(Ret(c, if more == "" then None else Some(more), None), Resume(optstring, a, i, ""))
    case Required =>
      if more != "" then Returning(Ret(c, Some(more), None), Resume(optstring, a, i, ""))
      else if i + 1 == |a| then Returning(Ret(MissingCode(optstring), None, Some(c)), Resume(optstring, a, i, ""))
      else
        var p := PlanFrom(optstring, a, i + 2);
        Returning(Ret(c, Some(a[i + 1]), None), p.(opts := [a[i], a[i + 1]] + p.opts))
  }

  /** The scan when an option of element `i` has been dealt with and `more` is left of it. */
  function Resume(optstring: string, a: seq<string>, i: nat, more: string): Plan
    requires i < |a| && |a[i]| > 1
    decreases |a| - i, 0, |more|, 1
  {
    if more != "" then Cluster(optstring, a, i, more)
    else
      var p := PlanFrom(optstring, a, i + 1);
      p.(opts := [a[i]] + p.opts)
  }

  /** Where an element of the original vector ends up. */
  datatype Place = Front | Middle | Back

  /** The elements of `a` that have the given place, in order. */
  function Select(a: seq<string>, places: seq<Place>, place: Place): seq<string>
    requires |a| == |places|
  {
    if a == [] then []
    else (if places[0] == place then [a[0]] else []) + Select(a[1..], places[1..], place)
  }

  /** `p` splits the elements `a[i..]` stably. */
  ghost predicate Splits(a: seq<string>, i: nat, p: Plan, places: seq<Place>)
    requires i <= |a|
  {
    && |places| == |a| - i
    && p.opts == Select(a[i..], places, Front)
    && p.nonopts == Select(a[i..], places, Middle)
    && p.tail == Select(a[i..], places, Back)
  }

  lemma SelectCons(a: seq<string>, i: nat, places: seq<Place>, here: Place, place: Place)
    requires i < |a| && |places| == |a| - i - 1
    ensures Select(a[i..], [here] + places, place) ==
      (if here == place then [a[i]] else []) + Select(a[i + 1..], places, place)
  {
    assert a[i..][1..] == a[i + 1..];
    assert ([here] + places)[1..] == places;
  }

  lemma {:induction false} SelectAll(a: seq<string>, place: Place)
    ensures Select(a, seq(|a|, i => Back), place) == if place == Back then a else []
    decreases |a|
  {
    if a != [] {
      assert seq(|a|, i => Back)[1..] == seq(|a[1..]|, i => Back);
      SelectAll(a[1..], place);
    }
  }

  lemma SplitsCons(a: seq<string>, i: nat, p: Plan, places: seq<Place>, here: Place)
    requires i < |a| && Splits(a, i + 1, p, places)
    ensures here == Front ==> Splits(a, i, p.(opts := [a[i]] + p.opts), [here] + places)
    ensures here == Middle ==> Splits(a, i, p.(nonopts := [a[i]] + p.nonopts), [here] + places)
  {
    SelectCons(a, i, places, here, Front);
    SelectCons(a, i, places, here, Middle);
    SelectCons(a, i, places, here, Back);
  }

  /** A scan that ends splits the vector into its option elements, its non-options and what
      follows "--", each in original order. */
  lemma {:induction false} PlanSplits(optstring: string, a: seq<string>, i: nat) returns (places: seq<Place>)
    requires i <= |a| && !PlanFrom(optstring, a, i).Endless()
    ensures Splits(a, i, PlanFrom(optstring, a, i), places)
    decreases |a| - i, 1, 0, 0
  {
    if i == |a| {
      places := [];
    } else if IsNonOption(a[i]) {
      places := PlanSplits(optstring, a, i + 1);
      SplitsCons(a, i, PlanFrom(optstring, a, i + 1), places, Middle);
      places := [Middle] + places;
    } else if a[i] == "--" {
      var after := seq(|a| - i - 1, j => Back);
      assert after == seq(|a[i + 1..]|, j => Back);
      SelectAll(a[i + 1..], Front);
      SelectAll(a[i + 1..], Middle);
      SelectAll(a[i + 1..], Back);
      SplitsCons(a, i, Plan([], [], a[i + 1..], [], []), after, Front);
      assert ["--"] + [] == ["--"];
      places := [Front] + after;
    } else {
      places := ClusterSplits(optstring, a, i, a[i][1..]);
    }
  }

  lemma {:induction false} ClusterSplits(optstring: string, a: seq<string>, i: nat, rest: string)
    returns (places: seq<Place>)
    requires i < |a| && |a[i]| > 1 && rest != "" && !Cluster(optstring, a, i, rest).Endless()
    ensures Splits(a, i, Cluster(optstring, a, i, rest), places)
    decreases |a| - i, 0, |rest|, 0
  {
    var kind := KindOf(optstring, rest[0]);
    if (kind.Unknown? || kind.Flag?) && rest[1..] != "" {
      places := ClusterSplits(optstring, a, i, rest[1..]);
    } else if kind.Required? && rest[1..] == "" && i + 1 < |a| {
      places := PlanSplits(optstring, a, i + 2);
      var p := PlanFrom(optstring, a, i + 2);
      SplitsCons(a, i + 1, p, places, Front);
      SplitsCons(a, i, p.(opts := [a[i + 1]] + p.opts), [Front] + places, Front);
      assert [a[i]] + ([a[i + 1]] + p.opts) == [a[i], a[i + 1]] + p.opts;
      places := [Front] + ([Front] + places);
    } else {
      places := PlanSplits(optstring, a, i + 1);
      SplitsCons(a, i, PlanFrom(optstring, a, i + 1), places, Front);
      places := [Front] + places;
    }
  }

  /** Only a long `-W` in the option string can make a scan endless. */
  lemma {:induction false} EndsWithoutW(optstring: string, a: seq<string>, i: nat)
    requires !KindOf(optstring, 'W').LongW?
    ensures !PlanFrom(optstring, a, i).Endless()
    decreases |a| - i, 1, 0, 0
  {
    if i < |a| {
      if IsNonOption(a[i]) {
        EndsWithoutW(optstring, a, i + 1);
      } else if a[i] != "--" {
        ClusterEnds(optstring, a, i, a[i][1..]);
      }
    }
  }

  lemma {:induction false} ClusterEnds(optstring: string, a: seq<string>, i: nat, rest: string)
    requires !KindOf(optstring, 'W').LongW?
    requires i < |a| && |a[i]| > 1 && rest != ""
    ensures !Cluster(optstring, a, i, rest).Endless()
    decreases |a| - i, 0, |rest|, 0
  {
    EndsWithoutW(optstring, a, i + 1);
    EndsWithoutW(optstring, a, i + 2);
    if rest[1..] != "" { ClusterEnds(optstring, a, i, rest[1..]); }
  }

  lemma NotEvery(optstring: string, a: seq<string>, i: nat)
    requires PlanFrom(optstring, a, i).Endless()
    ensures !forall a: seq<string>, i: nat :: !PlanFrom(optstring, a, i).Endless()
  {
  }

  /** Every scan with an option string ends if and only if it holds no long `-W`. */
  lemma EveryScanEnds(optstring: string)
    ensures (forall a: seq<string>, i: nat :: !PlanFrom(optstring, a, i).Endless()) <==> !KindOf(optstring, 'W').LongW?
  {
    if KindOf(optstring, 'W').LongW? {
      EndlessExample(optstring);
      NotEvery(optstring, ["prog", "-Wx"], 1);
    } else {
      forall a: seq<string>, i: nat
        ensures !PlanFrom(optstring, a, i).Endless()
      {
        EndsWithoutW(optstring, a, i);
      }
    }
  }

  /** A character that is an option without argument, or no option at all. */
  predicate Plain(optstring: string, c: char) {
    KindOf(optstring, c).Unknown? || KindOf(optstring, c).Flag?
  }

  predicate AllPlain(optstring: string, rest: string, n: nat)
    requires n <= |rest|
  {
    forall j | 0 <= j < n :: Plain(optstring, rest[j])
  }

  /** After plain characters comes a long W that is not the last one. */
  ghost predicate Hangs(optstring: string, rest: string) {
    exists e: nat :: e + 1 < |rest| && KindOf(optstring, rest[e]).LongW? && AllPlain(optstring, rest, e)
  }

  /** After plain characters comes, as the last one, an option that takes the next element as its argument. */
  predicate Takes(optstring: string, rest: string) {
    rest != "" && KindOf(optstring, rest[|rest| - 1]).Required? && AllPlain(optstring, rest, |rest| - 1)
  }

  lemma HangsMore(optstring: string, rest: string)
    requires rest != ""
    ensures Hangs(optstring, rest) <==>
      (KindOf(optstring, rest[0]).LongW? && rest[1..] != "") ||
      (Plain(optstring, rest[0]) && Hangs(optstring, rest[1..]))
    ensures !Hangs(optstring, "")
  {
    hide KindOf;
    var more := rest[1..];
    if Hangs(optstring, rest) {
      var e: nat :| e + 1 < |rest| && KindOf(optstring, rest[e]).LongW? && AllPlain(optstring, rest, e);
      if e > 0 {
        assert Plain(optstring, rest[0]);
        assert more[e - 1] == rest[e] && forall j | 0 <= j < e - 1 :: more[j] == rest[j + 1];
      }
    }
    if KindOf(optstring, rest[0]).LongW? && more != "" { assert 0 + 1 < |rest|; }
    if Plain(optstring, rest[0]) && Hangs(optstring, more) {
      var e: nat :| e + 1 < |more| && KindOf(optstring, more[e]).LongW? && AllPlain(optstring, more, e);
      assert rest[e + 1] == more[e] && forall j | 0 < j < e + 1 :: rest[j] == more[j - 1];
    }
  }

  lemma TakesMore(optstring: string, rest: string)
    requires rest != ""
    ensures Takes(optstring, rest) <==>
      (KindOf(optstring, rest[0]).Required? && rest[1..] == "") ||
      (Plain(optstring, rest[0]) && Takes(optstring, rest[1..]))
    ensures !Takes(optstring, "")
  {
    hide KindOf;
    var more := rest[1..];
    assert forall j | 0 <= j < |more| :: more[j] == rest[j + 1];
    if Takes(optstring, rest) && more != "" { assert Plain(optstring, rest[0]); }
    if Plain(optstring, rest[0]) && Takes(optstring, more) {
      forall j | 0 <= j < |rest| - 1
        ensures Plain(optstring, rest[j])
      {
        if j > 0 { assert Plain(optstring, more[j - 1]); }
      }
    }
  }

  /** The element after element `i` that the scan looks at. */
  function After(optstring: string, a: seq<string>, i: nat): nat
    requires i < |a|
  {
    if !IsNonOption(a[i]) && Takes(optstring, a[i][1..]) then i + 2 else i + 1
  }

  /** The elements that the scan looks at from element `i` on, up to some point. */
  ghost predicate LooksAt(optstring: string, a: seq<string>, i: nat, visits: seq<nat>) {
    && visits != [] && visits[0] == i
    && forall n: nat | n + 1 < |visits| ::
         visits[n] < |a| && a[visits[n]] != "--" && visits[n + 1] == After(optstring, a, visits[n])
  }

  /** Among them is an option element with a long W followed by further characters. */
  ghost predicate MeetsW(optstring: string, a: seq<string>, i: nat) {
    exists visits :: LooksAt(optstring, a, i, visits) && StuckAt(optstring, a, visits[|visits| - 1])
  }

  ghost predicate StuckAt(optstring: string, a: seq<string>, k: nat) {
    k < |a| && !IsNonOption(a[k]) && a[k] != "--" && Hangs(optstring, a[k][1..])
  }

  lemma MeetsNext(optstring: string, a: seq<string>, i: nat)
    ensures i >= |a| ==> !MeetsW(optstring, a, i)
    ensures i < |a| && a[i] == "--" ==> !MeetsW(optstring, a, i)
    ensures i < |a| && a[i] != "--" ==>
      (MeetsW(optstring, a, i) <==> StuckAt(optstring, a, i) || MeetsW(optstring, a, After(optstring, a, i)))
  {
    hide Hangs, Takes;
    if MeetsW(optstring, a, i) {
      var visits :| LooksAt(optstring, a, i, visits) && StuckAt(optstring, a, visits[|visits| - 1]);
      if |visits| > 1 {
        var rest := visits[1..];
        assert visits[1] == visits[0 + 1] == After(optstring, a, i);
        forall n: nat | n + 1 < |rest|
          ensures rest[n] < |a| && a[rest[n]] != "--" && rest[n + 1] == After(optstring, a, rest[n])
        {
          assert visits[n + 1] < |a| && visits[n + 1 + 1] == After(optstring, a, visits[n + 1]);
        }
        assert LooksAt(optstring, a, visits[1], rest);
      }
    }
    if i < |a| && a[i] != "--" {
      if StuckAt(optstring, a, i) { assert LooksAt(optstring, a, i, [i]); }
      if MeetsW(optstring, a, After(optstring, a, i)) {
        var visits :|
          LooksAt(optstring, a, After(optstring, a, i), visits) && StuckAt(optstring, a, visits[|visits| - 1]);
        assert LooksAt(optstring, a, i, [i] + visits);
      }
    }
  }

  lemma {:induction false} ClusterEndless(optstring: string, a: seq<string>, i: nat, rest: string)
    requires i < |a| && |a[i]| > 1 && rest != ""
    ensures Cluster(optstring, a, i, rest).Endless() <==>
      Hangs(optstring, rest) || PlanFrom(optstring, a, if Takes(optstring, rest) then i + 2 else i + 1).Endless()
    decreases |rest|
  {
    hide KindOf, Hangs, Takes;
    HangsMore(optstring, rest);
    TakesMore(optstring, rest);
    var more := rest[1..];
    assert Resume(optstring, a, i, "").Endless() == PlanFrom(optstring, a, i + 1).Endless();
    if more != "" {
      ClusterEndless(optstring, a, i, more);
      assert Resume(optstring, a, i, more).Endless() == Cluster(optstring, a, i, more).Endless();
    }
    match KindOf(optstring, rest[0])
    case Unknown =>
    case Flag =>
    case LongW =>
    case Optional =>
    case Required =>
      if more == "" && i + 1 == |a| {
        assert !PlanFrom(optstring, a, i + 2).Endless() && !PlanFrom(optstring, a, i + 1).Endless();
      }
  }

  /** The scan of a vector is endless if and only if it looks at an option element with a long W that is followed by
      further characters and comes after options without arguments only. */
  lemma {:induction false} EndlessExactly(optstring: string, a: seq<string>, i: nat)
    ensures PlanFrom(optstring, a, i).Endless() <==> MeetsW(optstring, a, i)
    decreases |a| - i
  {
    hide Hangs, Takes, MeetsW, Cluster;
    MeetsNext(optstring, a, i);
    if i < |a| && a[i] != "--" {
      EndlessExactly(optstring, a, i + 1);
      EndlessExactly(optstring, a, i + 2);
      if !IsNonOption(a[i]) { ClusterEndless(optstring, a, i, a[i][1..]); }
    }
  }

  /** What is left of option element `s` when some plain characters have been dealt with. */
  predicate InCluster(optstring: string, s: string, rest: string) {
    && !IsNonOption(s) && s != "--" && |rest| < |s| && rest == s[|s| - |rest|..]
    && AllPlain(optstring, s[1..], |s| - 1 - |rest|)
  }

  lemma ClusterMore(optstring: string, s: string, rest: string)
    requires InCluster(optstring, s, rest) && rest != "" && Plain(optstring, rest[0])
    ensures InCluster(optstring, s, rest[1..])
  {
    hide KindOf;
    assert rest[1..] == s[|s| - |rest| + 1..];
    assert s[1..][|s| - 1 - |rest|] == rest[0];
  }

  /** Whatever is left of the current element, the scan is as endless as that of the whole element. */
  lemma {:induction false} ClusterAgain(optstring: string, a: seq<string>, i: nat, rest: string)
    requires i < |a| && rest != "" && InCluster(optstring, a[i], rest)
    ensures PlanFrom(optstring, a, i).again == Cluster(optstring, a, i, rest).again
    decreases |a[i]| - |rest|
  {
    hide KindOf;
    var s := a[i];
    if |rest| == |s| - 1 {
      assert rest == s[1..];
    } else {
      var longer := s[|s| - |rest| - 1..];
      assert longer[1..] == rest && longer[0] == s[1..][|s| - 2 - |rest|];
      assert Plain(optstring, s[1..][|s| - 2 - |rest|]);
      ClusterAgain(optstring, a, i, longer);
      assert Cluster(optstring, a, i, longer).again == Resume(optstring, a, i, rest).again;
    }
  }

  lemma {:induction false} ClusterHangs(optstring: string, a: seq<string>, i: nat, rest: string)
    requires i < |a| && |a[i]| > 1 && rest != "" && Hangs(optstring, rest)
    ensures Cluster(optstring, a, i, rest) == Plan([], [], [], Returns(optstring, rest), Returns(optstring, a[i][1..]))
    decreases |rest|
  {
    hide KindOf, Hangs;
    HangsMore(optstring, rest);
    if Plain(optstring, rest[0]) {
      ClusterHangs(optstring, a, i, rest[1..]);
      assert Resume(optstring, a, i, rest[1..]) == Cluster(optstring, a, i, rest[1..]);
    }
  }

  /** Where the scan hangs, it looks at the element again: the returns to come are those that come again and again. */
  lemma HangsAgain(optstring: string, a: seq<string>, i: nat, rest: string)
    requires i < |a| && InCluster(optstring, a[i], rest) && |rest| > 1 && KindOf(optstring, rest[0]).LongW?
    ensures Cluster(optstring, a, i, rest).results == [Ret('W', None, None)]
    ensures var again := Cluster(optstring, a, i, rest).again;
      again != [] && PlanFrom(optstring, a, i) == Plan([], [], [], again, again)
  {
    hide KindOf;
    var s := a[i];
    var e: nat := |s| - 1 - |rest|;
    assert s[1..][e] == rest[0];
    assert Hangs(optstring, s[1..]);
    assert Hangs(optstring, rest) by { assert AllPlain(optstring, rest, 0); }
    ClusterHangs(optstring, a, i, rest);
    ClusterHangs(optstring, a, i, s[1..]);
  }

  /** Return number `j` of an endless scan: one of those planned, or of those that come again and again. */
  function Stream(p: Plan, j: nat): Ret
    requires p.Endless()
    decreases j
  {
    if j < |p.results| then p.results[j]
    else if j - |p.results| < |p.again| then p.again[j - |p.results|]
    else Stream(p, j - |p.again|)
  }

  /** All planned returns, and a number of rounds of the others. */
  predicate RoundEnd(p: Plan, m: nat)
    requires p.Endless()
    decreases m
  {
    m == |p.results| || (m >= |p.results| + |p.again| && RoundEnd(p, m - |p.again|))
  }

  /** The returns `ahead` are those from number `m` on, up to the end of a round. */
  ghost predicate Aligned(p: Plan, m: nat, ahead: seq<Ret>) {
    && p.Endless() && ahead != [] && RoundEnd(p, m + |ahead|)
    && forall j: nat | j < |ahead| :: ahead[j] == Stream(p, m + j)
  }

  lemma {:induction false} RoundStarts(p: Plan, m: nat, j: nat)
    requires p.Endless() && RoundEnd(p, m) && j < |p.again|
    ensures Stream(p, m + j) == p.again[j] && RoundEnd(p, m + |p.again|)
    decreases m
  {
    if m != |p.results| { RoundStarts(p, m - |p.again|, j); }
  }

  lemma AlignedNext(p: Plan, m: nat, ahead: seq<Ret>)
    requires Aligned(p, m, ahead)
    ensures Aligned(p, m + 1, if |ahead| == 1 then p.again else ahead[1..])
  {
    if |ahead| == 1 {
      RoundStarts(p, m + 1, 0);
      forall j: nat | j < |p.again|
        ensures p.again[j] == Stream(p, m + 1 + j)
      {
        RoundStarts(p, m + 1, j);
      }
    } else {
      forall j: nat | j < |ahead[1..]|
        ensures ahead[1..][j] == Stream(p, m + 1 + j)
      {
        assert ahead[j + 1] == Stream(p, m + (j + 1));
      }
    }
  }

  /** An endless scan always has a next return, so `getopt` never returns -1 in it. */
  lemma {:induction false} EndlessGoesOn(optstring: string, a: seq<string>, i: nat)
    ensures PlanFrom(optstring, a, i).Endless() ==> PlanFrom(optstring, a, i).results != []
    decreases |a| - i
  {
    if i < |a| && IsNonOption(a[i]) { EndlessGoesOn(optstring, a, i + 1); }
  }

  lemma EndlessResumes(optstring: string, a: seq<string>, i: nat, more: string)
    requires i < |a| && |a[i]| > 1
    ensures Resume(optstring, a, i, more).Endless() ==> Resume(optstring, a, i, more).results != []
  {
    if more == "" { EndlessGoesOn(optstring, a, i + 1); }
  }

  /** With a long `-W` in the option string the scan of `prog -Wx` is endless: the element is looked at
      again and again, since only the last character of an element advances `optind`. */
  lemma EndlessExample(optstring: string)
    requires KindOf(optstring, 'W').LongW?
    ensures PlanFrom(optstring, ["prog", "-Wx"], 1).Endless()
  {
    assert "-Wx"[1..] == "Wx";
    assert Cluster(optstring, ["prog", "-Wx"], 1, "Wx").Endless();
  }
}
