/** What a program declares in its option string and what its user writes, and that `getopt` gets the one from the
    vector that stands for the other. */
module GetoptUses {
  import opened GetoptSpec

  /** What an option takes; only `W` can be marked with a semicolon. */
  datatype Takes = Nothing | AnArgument | MaybeArgument | Long

  datatype Decl = Decl(c: char, takes: Takes)

  function Mark(takes: Takes): string {
    match takes
    case Nothing => ""
    case AnArgument => ":"
    case MaybeArgument => "::"
    case Long => ";"
  }

  function Declared(decls: seq<Decl>): string {
    if decls == [] then "" else [decls[0].c] + Mark(decls[0].takes) + Declared(decls[1..])
  }

  /** The option string; with a colon in front missing arguments are reported by a colon. */
  function OptString(quiet: bool, decls: seq<Decl>): string {
    (if quiet then ":" else "") + Declared(decls)
  }

  predicate Proper(decls: seq<Decl>) {
    && (forall j | 0 <= j < |decls| ::
          decls[j].c != ':' && decls[j].c != ';' && (decls[j].takes.Long? ==> decls[j].c == 'W'))
    && forall i, j | 0 <= i < j < |decls| :: decls[i].c != decls[j].c
  }

  /** How a character has been declared. */
  function Looked(decls: seq<Decl>, c: char): Option<Takes> {
    if decls == [] then None else if decls[0].c == c then Some(decls[0].takes) else Looked(decls[1..], c)
  }

  /** The last option of an element: none that takes anything, one with its argument in the same element, one with its
      argument in the next element, one whose argument is left out, one whose argument is wanting at the end of
      the vector, or a long W. */
  datatype Last =
    | NoLast
    | Attached(c: char, arg: string)
    | Separate(c: char, arg: string)
    | Absent(c: char)
    | Missing(c: char)
    | LongLast

  /** What the user writes: an operand, or a number of options in one element, those without arguments, and those not
      declared at all, first. */
  datatype Use = Operand(s: string) | Options(plain: string, last: Last)

  function LastChars(last: Last): string {
    match last
    case NoLast => ""
    case Attached(c, arg) => [c] + arg
    case Separate(c, _) => [c]
    case Absent(c) => [c]
    case Missing(c) => [c]
    case LongLast => "W"
  }

  /** The elements of the vector that stand for a use. */
  function Written(u: Use): seq<string> {
    match u
    case Operand(s) => [s]
    case Options(plain, last) => ["-" + plain + LastChars(last)] + if last.Separate? then [last.arg] else []
  }

  predicate PlainUse(decls: seq<Decl>, c: char) {
    Looked(decls, c) == None || Looked(decls, c) == Some(Nothing)
  }

  predicate LastFits(decls: seq<Decl>, last: Last) {
    match last
    case NoLast => true
    case Attached(c, arg) => arg != "" && Looked(decls, c) in {Some(AnArgument), Some(MaybeArgument)}
    case Separate(c, _) => Looked(decls, c) == Some(AnArgument)
    case Absent(c) => Looked(decls, c) == Some(MaybeArgument)
    case Missing(c) => Looked(decls, c) == Some(AnArgument)
    case LongLast => Looked(decls, 'W') == Some(Long)
  }

  /** The use is one of the options declared, or of characters that are none. */
  predicate Fits(decls: seq<Decl>, u: Use) {
    match u
    case Operand(s) => IsNonOption(s)
    case Options(plain, last) =>
      && (forall j | 0 <= j < |plain| :: PlainUse(decls, plain[j])) && LastFits(decls, last)
      && plain + LastChars(last) != "" && plain + LastChars(last) != "-"
  }

  function PlainReturns(decls: seq<Decl>, plain: string): seq<Ret> {
    if plain == "" then []
    else
      [if Looked(decls, plain[0]) == None then Ret('?', None, Some(plain[0])) else Ret(plain[0], None, None)] +
      PlainReturns(decls, plain[1..])
  }

  function LastReturns(quiet: bool, last: Last): seq<Ret> {
    match last
    case NoLast => []
    case Attached(c, arg) => [Ret(c, Some(arg), None)]
    case Separate(c, arg) => [Ret(c, Some(arg), None)]
    case Absent(c) => [Ret(c, None, None)]
    case Missing(c) => [Ret(if quiet then ':' else '?', None, Some(c))]
    case LongLast => [Ret('W', None, None)]
  }

  /** What the program is to be told of a use. */
  function Told(quiet: bool, decls: seq<Decl>, u: Use): seq<Ret> {
    match u
    case Operand(_) => []
    case Options(plain, last) => PlainReturns(decls, plain) + LastReturns(quiet, last)
  }

  function AllTold(quiet: bool, decls: seq<Decl>, us: seq<Use>): seq<Ret> {
    if us == [] then [] else Told(quiet, decls, us[0]) + AllTold(quiet, decls, us[1..])
  }

  function AllWritten(us: seq<Use>): seq<string> {
    if us == [] then [] else Written(us[0]) + AllWritten(us[1..])
  }

  function OptionsOf(us: seq<Use>): seq<string> {
    if us == [] then [] else (if us[0].Options? then Written(us[0]) else []) + OptionsOf(us[1..])
  }

  function OperandsOf(us: seq<Use>): seq<string> {
    if us == [] then [] else (if us[0].Operand? then [us[0].s] else []) + OperandsOf(us[1..])
  }

  /** What may follow the uses: nothing, or a double dash and anything. */
  datatype Ending = Plainly | Dashes(tail: seq<string>)

  function EndWritten(end: Ending): seq<string> {
    match end
    case Plainly => []
    case Dashes(tail) => ["--"] + tail
  }

  /** An argument can be wanting only at the very end. */
  predicate AllFit(decls: seq<Decl>, us: seq<Use>, end: Ending) {
    && (forall j | 0 <= j < |us| :: Fits(decls, us[j]))
    && forall j | 0 <= j < |us| && us[j].Options? && us[j].last.Missing? :: j == |us| - 1 && end.Plainly?
  }

  function KindMeant(o: Option<Takes>): Kind {
    match o
    case None => Unknown
    case Some(Nothing) => Flag
    case Some(AnArgument) => Required
    case Some(MaybeArgument) => Optional
    case Some(Long) => LongW
  }

  lemma {:induction false} FindPast(p: string, s: string, c: char)
    requires c !in p
    ensures Find(p + s, c) == |p| + Find(s, c)
    decreases |p|
  {
    if p == "" {
      assert p + s == s;
    } else {
      assert (p + s)[1..] == p[1..] + s && (p + s)[0] == p[0];
      FindPast(p[1..], s, c);
    }
  }

  /** Characters in front that are not looked for do not matter. */
  lemma KindPast(p: string, s: string, c: char)
    requires c !in p
    ensures KindOf(p + s, c) == KindOf(s, c)
  {
    FindPast(p, s, c);
    var i := Find(s, c);
    assert CharAt(p + s, |p| + i + 1) == CharAt(s, i + 1) && CharAt(p + s, |p| + i + 2) == CharAt(s, i + 2);
  }

  /** The first option declared. */
  lemma FirstKind(d: Decl, rest: string)
    requires d.c != ':' && d.c != ';' && (d.takes.Long? ==> d.c == 'W')
    requires rest != "" ==> rest[0] != ':' && rest[0] != ';'
    ensures KindOf([d.c] + Mark(d.takes) + rest, d.c) == KindMeant(Some(d.takes))
  {
    var s := [d.c] + Mark(d.takes) + rest;
    assert s[0] == d.c;
    assert CharAt(s, 1) == if d.takes.Nothing? then CharAt(rest, 0) else Mark(d.takes)[0];
    if d.takes.AnArgument? { assert CharAt(s, 2) == CharAt(rest, 0); }
    if d.takes.MaybeArgument? { assert s[2] == ':'; }
  }

  lemma NothingKnown(c: char)
    ensures KindOf("", c).Unknown?
  {
  }

  lemma MarkChars(takes: Takes)
    ensures forall x | x in Mark(takes) :: x == ':' || x == ';'
  {
  }

  /** The option string says of every character how it was declared. */
  lemma {:induction false} KindsDeclared(decls: seq<Decl>, c: char)
    requires Proper(decls)
    ensures KindOf(Declared(decls), c) == KindMeant(Looked(decls, c))
    ensures Declared(decls) != "" ==> Declared(decls)[0] != ':' && Declared(decls)[0] != ';'
    decreases |decls|
  {
    hide KindOf, Mark;
    if decls == [] {
      NothingKnown(c);
    } else {
      var d, rest := decls[0], Declared(decls[1..]);
      KindsDeclared(decls[1..], c);
      var front := [d.c] + Mark(d.takes);
      if c == ':' || c == ';' {
        NotDeclared(decls, c);
        if c == ':' { ColonUnknown(Declared(decls)); } else { SemicolonUnknown(Declared(decls)); }
      } else if c == d.c {
        FirstKind(d, rest);
      } else {
        assert c !in front by { MarkChars(d.takes); }
        KindPast(front, rest, c);
      }
    }
  }

  lemma {:induction false} NotDeclared(decls: seq<Decl>, c: char)
    requires Proper(decls) && (c == ':' || c == ';')
    ensures Looked(decls, c) == None
    decreases |decls|
  {
    if decls != [] { NotDeclared(decls[1..], c); }
  }

  lemma KindsOf(quiet: bool, decls: seq<Decl>, c: char)
    requires Proper(decls)
    ensures KindOf(OptString(quiet, decls), c) == KindMeant(Looked(decls, c))
    ensures MissingCode(OptString(quiet, decls)) == if quiet then ':' else '?'
  {
    hide KindOf;
    KindsDeclared(decls, c);
    if c == ':' {
      NotDeclared(decls, c);
      ColonUnknown(OptString(quiet, decls));
    } else if quiet {
      KindPast(":", Declared(decls), c);
    } else {
      assert "" + Declared(decls) == Declared(decls);
    }
  }

  lemma ColonUnknown(optstring: string)
    ensures KindOf(optstring, ':').Unknown?
  {
  }

  lemma SemicolonUnknown(optstring: string)
    ensures KindOf(optstring, ';').Unknown?
  {
  }

  /** The option of an element that ends it. */
  lemma ClusterLast(optstring: string, a: seq<string>, i: nat, rest: string)
    requires i < |a| && |a[i]| > 1 && rest != ""
    ensures var p, p' := PlanFrom(optstring, a, i + 1), PlanFrom(optstring, a, i + 2);
      var c, more := rest[0], rest[1..];
      match KindOf(optstring, c)
      case LongW => more == "" ==> Cluster(optstring, a, i, rest) == Ended(p, [a[i]], Ret('W', None, None))
      case Optional =>
        Cluster(optstring, a, i, rest) == Ended(p, [a[i]], Ret(c, if more == "" then None else Some(more), None))
      case Required =>
        Cluster(optstring, a, i, rest) ==
          (if more != "" then Ended(p, [a[i]], Ret(c, Some(more), None))
           else if i + 1 == |a| then Ended(p, [a[i]], Ret(MissingCode(optstring), None, Some(c)))
           else Ended(p', [a[i], a[i + 1]], Ret(c, Some(a[i + 1]), None)))
      case _ => true
  {
    hide KindOf, PlanFrom, MissingCode;
  }

  function Ended(p: Plan, elements: seq<string>, r: Ret): Plan {
    p.(opts := elements + p.opts, results := [r] + p.results)
  }

  /** What the last option of an element comes to. */
  lemma LastTold(quiet: bool, decls: seq<Decl>, a: seq<string>, i: nat, last: Last)
    requires Proper(decls) && i < |a| && |a[i]| > 1 && LastFits(decls, last) && !last.NoLast?
    requires last.Separate? ==> i + 1 < |a| && a[i + 1] == last.arg
    requires last.Missing? ==> i + 1 == |a|
    ensures var optstring := OptString(quiet, decls);
      var n := if last.Separate? then 2 else 1;
      var p := PlanFrom(optstring, a, i + n);
      Cluster(optstring, a, i, LastChars(last)) ==
        p.(opts := a[i..i + n] + p.opts, results := LastReturns(quiet, last) + p.results)
  {
    hide KindOf, PlanFrom, OptString, Looked, MissingCode, Cluster;
    KindsOf(quiet, decls, LastChars(last)[0]);
    ClusterLast(OptString(quiet, decls), a, i, LastChars(last));
    assert a[i..i + 1] == [a[i]];
    if last.Separate? { assert a[i..i + 2] == [a[i], a[i + 1]]; }
    if last.Attached? { assert LastChars(last)[1..] == last.arg; }
  }

  /** The scan of an option without argument. */
  lemma PlainTold(quiet: bool, decls: seq<Decl>, a: seq<string>, i: nat, rest: string)
    requires Proper(decls) && i < |a| && |a[i]| > 1 && rest != "" && PlainUse(decls, rest[0])
    ensures Cluster(OptString(quiet, decls), a, i, rest) ==
      Returning(PlainReturns(decls, [rest[0]])[0], Resume(OptString(quiet, decls), a, i, rest[1..]))
  {
    hide KindOf, PlanFrom, OptString, Looked, Resume;
    KindsOf(quiet, decls, rest[0]);
  }

  /** A plan that starts with some elements and returns. */
  function Started(p: Plan, elements: seq<string>, rs: seq<Ret>): Plan {
    p.(opts := elements + p.opts, results := rs + p.results)
  }

  lemma StartedMore(p: Plan, elements: seq<string>, r: Ret, rs: seq<Ret>)
    ensures Returning(r, Started(p, elements, rs)) == Started(p, elements, [r] + rs)
  {
    assert [r] + (rs + p.results) == ([r] + rs) + p.results;
  }

  lemma ResumeEnds(optstring: string, a: seq<string>, i: nat)
    requires i < |a| && |a[i]| > 1
    ensures Resume(optstring, a, i, "") == Started(PlanFrom(optstring, a, i + 1), a[i..i + 1], [])
  {
    hide PlanFrom;
    assert a[i..i + 1] == [a[i]];
    assert [] + PlanFrom(optstring, a, i + 1).results == PlanFrom(optstring, a, i + 1).results;
  }

  lemma ResumeMore(optstring: string, a: seq<string>, i: nat, more: string)
    requires i < |a| && |a[i]| > 1 && more != ""
    ensures Resume(optstring, a, i, more) == Cluster(optstring, a, i, more)
  {
    hide PlanFrom, Cluster;
  }

  /** The scan of the characters of an element that holds options. */
  lemma {:induction false} ClusterTold(quiet: bool, decls: seq<Decl>, a: seq<string>, i: nat, plain: string, last: Last)
    requires Proper(decls) && i < |a| && |a[i]| > 1 && plain + LastChars(last) != ""
    requires (forall j | 0 <= j < |plain| :: PlainUse(decls, plain[j])) && LastFits(decls, last)
    requires last.Separate? ==> i + 1 < |a| && a[i + 1] == last.arg
    requires last.Missing? ==> i + 1 == |a|
    ensures var optstring := OptString(quiet, decls);
      var n := if last.Separate? then 2 else 1;
      && i + n <= |a|
      && Cluster(optstring, a, i, plain + LastChars(last)) ==
         Started(PlanFrom(optstring, a, i + n), a[i..i + n], PlainReturns(decls, plain) + LastReturns(quiet, last))
    decreases |plain|
  {
    hide KindOf, PlanFrom, OptString, Looked, PlainUse, LastFits, Cluster, LastReturns, PlainReturns, Resume, Returning,
      Started, LastChars;
    var optstring, n := OptString(quiet, decls), if last.Separate? then 2 else 1;
    NothingLast(quiet, decls);
    EmptyLast(last);
    if plain == "" {
      assert plain + LastChars(last) == LastChars(last);
      LastStarted(quiet, decls, a, i, last);
      assert [] + LastReturns(quiet, last) == LastReturns(quiet, last);
    } else {
      var later, p := plain[1..], PlanFrom(optstring, a, i + n);
      var more, rs := later + LastChars(last), PlainReturns(decls, later) + LastReturns(quiet, last);
      if more == "" {
        ResumeEnds(optstring, a, i);
        assert later == "" && LastChars(last) == "";
        assert rs == [];
      } else {
        LaterPlain(decls, plain);
        ClusterTold(quiet, decls, a, i, later, last);
        ResumeMore(optstring, a, i, more);
      }
      PlainStarted(quiet, decls, a, i, plain[0], more, p, a[i..i + n], rs);
      assert plain + LastChars(last) == [plain[0]] + more;
      PlainCons(decls, plain);
      assert PlainReturns(decls, plain) + LastReturns(quiet, last) == [PlainReturns(decls, [plain[0]])[0]] + rs;
    }
  }

  lemma EmptyLast(last: Last)
    ensures LastChars(last) == "" <==> last.NoLast?
  {
  }

  lemma LaterPlain(decls: seq<Decl>, plain: string)
    requires plain != "" && forall j | 0 <= j < |plain| :: PlainUse(decls, plain[j])
    ensures forall j | 0 <= j < |plain[1..]| :: PlainUse(decls, plain[1..][j])
  {
  }

  /** An option without argument, and what comes after it. */
  lemma PlainStarted(quiet: bool, decls: seq<Decl>, a: seq<string>, i: nat, c: char, more: string, p: Plan,
                     elements: seq<string>, rs: seq<Ret>)
    requires Proper(decls) && i < |a| && |a[i]| > 1 && PlainUse(decls, c)
    requires Resume(OptString(quiet, decls), a, i, more) == Started(p, elements, rs)
    ensures PlainReturns(decls, [c]) != []
    ensures Cluster(OptString(quiet, decls), a, i, [c] + more) ==
      Started(p, elements, [PlainReturns(decls, [c])[0]] + rs)
  {
    hide PlanFrom, OptString, PlainUse, Cluster, Resume, Returning, Started;
    assert ([c] + more)[0] == c && ([c] + more)[1..] == more;
    PlainTold(quiet, decls, a, i, [c] + more);
    StartedMore(p, elements, PlainReturns(decls, [c])[0], rs);
  }

  lemma LastStarted(quiet: bool, decls: seq<Decl>, a: seq<string>, i: nat, last: Last)
    requires Proper(decls) && i < |a| && |a[i]| > 1 && LastFits(decls, last) && !last.NoLast?
    requires last.Separate? ==> i + 1 < |a| && a[i + 1] == last.arg
    requires last.Missing? ==> i + 1 == |a|
    ensures var optstring, n := OptString(quiet, decls), if last.Separate? then 2 else 1;
      Cluster(optstring, a, i, LastChars(last)) ==
        Started(PlanFrom(optstring, a, i + n), a[i..i + n], LastReturns(quiet, last))
  {
    hide PlanFrom, OptString, LastFits, Cluster;
    LastTold(quiet, decls, a, i, last);
  }

  lemma PlainCons(decls: seq<Decl>, plain: string)
    requires plain != ""
    ensures PlainReturns(decls, [plain[0]]) != []
    ensures PlainReturns(decls, plain) == [PlainReturns(decls, [plain[0]])[0]] + PlainReturns(decls, plain[1..])
  {
    hide Looked;
  }

  lemma NothingLast(quiet: bool, decls: seq<Decl>)
    ensures LastReturns(quiet, NoLast) == [] && PlainReturns(decls, "") == []
  {
  }

  /** What is left to be scanned is what some uses stand for. */
  lemma {:induction false} UsesTold(quiet: bool, decls: seq<Decl>, a: seq<string>, i: nat, us: seq<Use>, end: Ending)
    requires Proper(decls) && AllFit(decls, us, end) && i <= |a| && a[i..] == AllWritten(us) + EndWritten(end)
    ensures PlanFrom(OptString(quiet, decls), a, i) ==
      Plan(OptionsOf(us) + (if end.Dashes? then ["--"] else []), OperandsOf(us), if end.Dashes? then end.tail else [],
        AllTold(quiet, decls, us), [])
    decreases |us|
  {
    hide PlanFrom, OptString, Looked, AllFit, Written, EndWritten, Told, Proper;
    if us == [] {
      EndTold(quiet, decls, a, i, end);
    } else {
      var n := |Written(us[0])|;
      var later := AllWritten(us[1..]) + EndWritten(end);
      assert a[i..] == Written(us[0]) + later;
      SplitOff(a, i, Written(us[0]), later);
      FitsLater(decls, us, end);
      UsesTold(quiet, decls, a, i + n, us[1..], end);
      UseTold(quiet, decls, a, i, us, end, n);
    }
  }

  lemma SplitOff(a: seq<string>, i: nat, front: seq<string>, later: seq<string>)
    requires i <= |a| && a[i..] == front + later
    ensures i + |front| <= |a| && a[i..i + |front|] == front && a[i + |front|..] == later
  {
    assert a[i + |front|..] == a[i..][|front|..];
    assert a[i..i + |front|] == a[i..][..|front|];
  }

  lemma FitsLater(decls: seq<Decl>, us: seq<Use>, end: Ending)
    requires AllFit(decls, us, end) && us != []
    ensures AllFit(decls, us[1..], end) && Fits(decls, us[0])
  {
    hide Fits;
    assert forall j | 0 <= j < |us[1..]| :: us[1..][j] == us[j + 1];
  }

  lemma EndTold(quiet: bool, decls: seq<Decl>, a: seq<string>, i: nat, end: Ending)
    requires i <= |a| && a[i..] == [] + EndWritten(end)
    ensures PlanFrom(OptString(quiet, decls), a, i) ==
      Plan(if end.Dashes? then ["--"] else [], [], if end.Dashes? then end.tail else [], [], [])
  {
    hide Cluster, OptString;
    if end.Dashes? {
      assert a[i] == a[i..][0] && a[i + 1..] == a[i..][1..] == end.tail;
    }
  }

  /** The first of some uses. */
  lemma UseTold(quiet: bool, decls: seq<Decl>, a: seq<string>, i: nat, us: seq<Use>, end: Ending, n: nat)
    requires Proper(decls) && AllFit(decls, us, end) && us != [] && n == |Written(us[0])|
    requires i + n <= |a| && a[i..i + n] == Written(us[0])
    requires a[i + n..] == AllWritten(us[1..]) + EndWritten(end)
    ensures var p := PlanFrom(OptString(quiet, decls), a, i + n);
      PlanFrom(OptString(quiet, decls), a, i) ==
        p.(opts := (if us[0].Options? then Written(us[0]) else []) + p.opts,
           nonopts := (if us[0].Operand? then [us[0].s] else []) + p.nonopts,
           results := Told(quiet, decls, us[0]) + p.results)
  {
    hide PlanFrom, OptString, Fits;
    assert Fits(decls, us[0]) && a[i] == a[i..i + n][0] == Written(us[0])[0];
    if us[0].Operand? {
      OperandTold(quiet, decls, a, i, us[0]);
    } else {
      if us[0].last.Missing? { assert |us| == 1 && a[i + n..] == []; }
      OptionsTold(quiet, decls, a, i, us[0], n);
    }
  }

  lemma OperandTold(quiet: bool, decls: seq<Decl>, a: seq<string>, i: nat, u: Use)
    requires u.Operand? && Fits(decls, u) && i < |a| && a[i] == u.s
    ensures var p := PlanFrom(OptString(quiet, decls), a, i + 1);
      PlanFrom(OptString(quiet, decls), a, i) == p.(opts := [] + p.opts, nonopts := [u.s] + p.nonopts)
  {
    hide OptString, Cluster;
  }

  lemma OptionsTold(quiet: bool, decls: seq<Decl>, a: seq<string>, i: nat, u: Use, n: nat)
    requires Proper(decls) && u.Options? && Fits(decls, u) && n == |Written(u)|
    requires i + n <= |a| && a[i..i + n] == Written(u) && (u.last.Missing? ==> i + 1 == |a|)
    ensures var p := PlanFrom(OptString(quiet, decls), a, i + n);
      PlanFrom(OptString(quiet, decls), a, i) ==
        p.(opts := Written(u) + p.opts, nonopts := [] + p.nonopts, results := Told(quiet, decls, u) + p.results)
  {
    hide Cluster, OptString, Looked, KindOf, PlainReturns, LastReturns, PlainUse, LastFits;
    var rest := u.plain + LastChars(u.last);
    assert a[i] == a[i..i + n][0] == "-" + rest by { assert ("-" + u.plain) + LastChars(u.last) == "-" + rest; }
    assert a[i][1..] == rest && a[i] != "--" by { assert "--"[1..] == "-"; }
    if u.last.Separate? { assert a[i + 1] == a[i..i + n][1]; }
    ClusterTold(quiet, decls, a, i, u.plain, u.last);
  }

  /** The round trip: from the vector that stands for some uses of the options declared, the calls return exactly what
      those uses are to tell, the operands move behind the options, and both keep their order. */
  lemma RoundTrip(quiet: bool, decls: seq<Decl>, prog: string, us: seq<Use>, end: Ending)
    requires Proper(decls) && AllFit(decls, us, end)
    ensures var optstring, a := OptString(quiet, decls), [prog] + AllWritten(us) + EndWritten(end);
      && !MeetsW(optstring, a, 1)
      && PlanFrom(optstring, a, 1) ==
         Plan(OptionsOf(us) + (if end.Dashes? then ["--"] else []), OperandsOf(us),
           if end.Dashes? then end.tail else [], AllTold(quiet, decls, us), [])
  {
    hide PlanFrom, MeetsW, AllFit, Proper, OptionsOf, OperandsOf, AllTold, OptString, AllWritten, EndWritten;
    var a := [prog] + AllWritten(us) + EndWritten(end);
    assert a == [prog] + (AllWritten(us) + EndWritten(end));
    assert a[1..] == AllWritten(us) + EndWritten(end);
    UsesTold(quiet, decls, a, 1, us, end);
    EndlessExactly(OptString(quiet, decls), a, 1);
  }

  /** The characters of an option element are those of some options. */
  lemma {:induction false} ClusterWritten(quiet: bool, decls: seq<Decl>, a: seq<string>, i: nat, rest: string)
    returns (plain: string, last: Last)
    requires Proper(decls) && i < |a| && |a[i]| > 1 && rest != ""
    requires !Cluster(OptString(quiet, decls), a, i, rest).Endless()
    ensures rest == plain + LastChars(last) && LastFits(decls, last)
    ensures forall j | 0 <= j < |plain| :: PlainUse(decls, plain[j])
    ensures last.Separate? ==> i + 1 < |a| && a[i + 1] == last.arg
    ensures last.Missing? ==> i + 1 == |a|
    decreases |rest|
  {
    hide KindOf, PlanFrom, OptString, Looked;
    var c, more := rest[0], rest[1..];
    assert rest == [c] + more;
    KindsOf(quiet, decls, c);
    match Looked(decls, c) {
      case Some(AnArgument) =>
        plain := "";
        last := if more != "" then Attached(c, more) else if i + 1 < |a| then Separate(c, a[i + 1]) else Missing(c);
      case Some(MaybeArgument) =>
        plain, last := "", if more != "" then Attached(c, more) else Absent(c);
      case Some(Long) =>
        LongIsW(decls, c);
        plain, last := "", LongLast;
      case _ =>
        if more == "" {
          plain, last := [c], NoLast;
        } else {
          PlainTold(quiet, decls, a, i, rest);
          plain, last := ClusterWritten(quiet, decls, a, i, more);
          plain := [c] + plain;
        }
    }
  }

  lemma {:induction false} LongIsW(decls: seq<Decl>, c: char)
    requires Proper(decls) && Looked(decls, c) == Some(Long)
    ensures c == 'W'
    decreases |decls|
  {
    if decls[0].c != c { LongIsW(decls[1..], c); }
  }

  /** So is an option element, with the next one if that is its argument. */
  lemma OptionsWritten(quiet: bool, decls: seq<Decl>, a: seq<string>, i: nat) returns (u: Use, n: nat)
    requires Proper(decls) && i < |a| && !IsNonOption(a[i]) && a[i] != "--"
    requires !PlanFrom(OptString(quiet, decls), a, i).Endless()
    ensures u.Options? && Fits(decls, u) && 0 < n && i + n <= |a| && a[i..i + n] == Written(u)
    ensures !PlanFrom(OptString(quiet, decls), a, i + n).Endless() && (u.last.Missing? ==> i + n == |a|)
  {
    hide OptString, Cluster, PlainUse, LastFits, LastChars;
    var plain, last := ClusterWritten(quiet, decls, a, i, a[i][1..]);
    ClusterTold(quiet, decls, a, i, plain, last);
    u := Options(plain, last);
    n := if last.Separate? then 2 else 1;
    assert a[i] == ("-" + plain) + LastChars(last) by { assert a[i] == "-" + a[i][1..]; }
    assert plain + LastChars(last) != "-" by { assert "-" + "-" == "--" && a[i] == "-" + a[i][1..]; }
    assert a[i..i + 1] == [a[i]];
    if last.Separate? { assert a[i..i + 2] == [a[i]] + [a[i + 1]]; }
  }

  lemma OperandGoesOn(optstring: string, a: seq<string>, i: nat)
    requires i < |a| && IsNonOption(a[i]) && !PlanFrom(optstring, a, i).Endless()
    ensures !PlanFrom(optstring, a, i + 1).Endless()
  {
  }

  /** Every vector stands for some uses, unless its scan is endless: the round trip covers all the others. */
  lemma {:induction false} EveryVector(quiet: bool, decls: seq<Decl>, a: seq<string>, i: nat)
    returns (us: seq<Use>, end: Ending)
    requires Proper(decls) && i <= |a| && !PlanFrom(OptString(quiet, decls), a, i).Endless()
    ensures AllFit(decls, us, end) && a[i..] == AllWritten(us) + EndWritten(end)
    decreases |a| - i
  {
    hide OptString, PlanFrom, Fits, AllFit, AllWritten, EndWritten, Written;
    if i == |a| {
      us, end := [], Plainly;
      NoneWritten(decls, a, i);
    } else if !IsNonOption(a[i]) && a[i] == "--" {
      us, end := [], Dashes(a[i + 1..]);
      NoneWritten(decls, a, i);
    } else {
      var u, n: nat := Operand(a[i]), 1;
      if IsNonOption(a[i]) {
        OperandGoesOn(OptString(quiet, decls), a, i);
        OperandFits(decls, a[i]);
        assert a[i..i + 1] == [a[i]];
      } else {
        u, n := OptionsWritten(quiet, decls, a, i);
      }
      us, end := EveryVector(quiet, decls, a, i + n);
      if u.Options? && u.last.Missing? { WantingLast(us, end, a); }
      us := FirstUse(decls, a, i, n, u, us, end);
    }
  }

  lemma NoneWritten(decls: seq<Decl>, a: seq<string>, i: nat)
    requires i <= |a|
    ensures i == |a| ==> AllFit(decls, [], Plainly) && a[i..] == AllWritten([]) + EndWritten(Plainly)
    ensures i < |a| && a[i] == "--" ==>
      AllFit(decls, [], Dashes(a[i + 1..])) && a[i..] == AllWritten([]) + EndWritten(Dashes(a[i + 1..]))
  {
  }

  lemma OperandFits(decls: seq<Decl>, s: string)
    requires IsNonOption(s)
    ensures Fits(decls, Operand(s)) && Written(Operand(s)) == [s]
  {
  }

  lemma WrittenSome(us: seq<Use>)
    ensures us != [] ==> AllWritten(us) != []
  {
    if us != [] { assert |Written(us[0])| > 0; }
  }

  lemma WantingLast(us: seq<Use>, end: Ending, a: seq<string>)
    requires a[|a|..] == AllWritten(us) + EndWritten(end)
    ensures us == [] && end.Plainly?
  {
    WrittenSome(us);
    assert a[|a|..] == [];
  }

  lemma FirstUse(decls: seq<Decl>, a: seq<string>, i: nat, n: nat, u: Use, later: seq<Use>, end: Ending)
    returns (us: seq<Use>)
    requires i + n <= |a| && Fits(decls, u) && AllFit(decls, later, end) && a[i..i + n] == Written(u)
    requires a[i + n..] == AllWritten(later) + EndWritten(end)
    requires u.Options? && u.last.Missing? ==> later == [] && end.Plainly?
    ensures AllFit(decls, us, end) && a[i..] == AllWritten(us) + EndWritten(end)
  {
    hide Fits, Written, EndWritten, AllFit, AllWritten;
    us := [u] + later;
    UsesCons(decls, u, later, end);
    assert a[i..] == a[i..i + n] + a[i + n..];
    assert a[i..] == (Written(u) + AllWritten(later)) + EndWritten(end);
  }

  lemma UsesCons(decls: seq<Decl>, u: Use, later: seq<Use>, end: Ending)
    requires Fits(decls, u) && AllFit(decls, later, end)
    requires u.Options? && u.last.Missing? ==> later == [] && end.Plainly?
    ensures AllFit(decls, [u] + later, end) && AllWritten([u] + later) == Written(u) + AllWritten(later)
  {
    hide Fits, Written;
    assert ([u] + later)[1..] == later && ([u] + later)[0] == u;
  }
}
