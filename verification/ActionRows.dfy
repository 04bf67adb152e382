/** What `action_row`, `conflict_row` and `save_row` make of a state: one entry a token, a default reduction, and for a
    GLR parser lists of the reductions that compete. */
module ActionRows {
  import opened LrTables
  import opened PackedTables

  /** A rule that can be reduced in a state, and the tokens on which. */
  datatype Reduction = Reduction(rule: nat, lookaheads: set<nat>)

  /** A shift of token `token`. */
  datatype Transition = Transition(token: nat, target: nat)

  /** A state: its reductions in the order of the rules, its shifts, and the tokens on which it is to raise an error,
      as `%nonassoc` says. */
  datatype State = State(reductions: seq<Reduction>, shifts: seq<Transition>, errors: seq<nat>, consistent: bool)

  /** The settings of the generator. */
  datatype Settings = Settings(ntokens: nat, errTok: nat, glr: bool, mostDefaults: bool)

  predicate Proper(o: Settings, s: State) {
    && (forall i | 0 <= i < |s.reductions| :: 0 < s.reductions[i].rule < -ERROR)
    && (forall i, j | 0 <= i < j < |s.reductions| :: s.reductions[i].rule != s.reductions[j].rule)
    && (forall i | 0 <= i < |s.shifts| :: s.shifts[i].token < o.ntokens && s.shifts[i].target > 0)
    && (forall i, j | 0 <= i < j < |s.shifts| :: s.shifts[i].token != s.shifts[j].token)
    && (forall i | 0 <= i < |s.errors| :: s.errors[i] < o.ntokens)
  }

  /** `rule_number_as_item_number`. */
  function AsItem(rule: nat): int {
    var n: int := rule;
    -n
  }

  /** The first rule that is reduced on `token`, or 0. */
  function FirstRule(rs: seq<Reduction>, token: nat): nat {
    if rs == [] then 0 else if token in rs[0].lookaheads then rs[0].rule else FirstRule(rs[1..], token)
  }

  /** The rules that are. */
  function Claims(rs: seq<Reduction>, token: nat): seq<nat> {
    if rs == [] then []
    else (if token in rs[0].lookaheads then [rs[0].rule] else []) + Claims(rs[1..], token)
  }

  /** The state that `token` is shifted to, or 0. */
  function ShiftOn(ts: seq<Transition>, token: nat): nat {
    if ts == [] then 0 else if ts[|ts| - 1].token == token then ts[|ts| - 1].target else ShiftOn(ts[..|ts| - 1], token)
  }

  /** What the state calls for on a token: an error before a shift, a shift before a reduction, and the first rule
      before all others. */
  function Wanted(s: State, token: nat): int {
    if token in s.errors then ERROR
    else if ShiftOn(s.shifts, token) > 0 then ShiftOn(s.shifts, token)
    else AsItem(FirstRule(s.reductions, token))
  }

  /** Several actions compete for the token. */
  predicate Torn(s: State, token: nat) {
    |Claims(s.reductions, token)| + (if ShiftOn(s.shifts, token) > 0 then 1 else 0) > 1
  }

  lemma {:induction false} RulesFirst(rs: seq<Reduction>, token: nat)
    requires forall i | 0 <= i < |rs| :: rs[i].rule > 0
    ensures FirstRule(rs, token) == if Claims(rs, token) == [] then 0 else Claims(rs, token)[0]
    ensures FirstRule(rs, token) == 0 <==> Claims(rs, token) == []
    ensures forall r ::
      r in Claims(rs, token) <==> exists i :: 0 <= i < |rs| && rs[i].rule == r && token in rs[i].lookaheads
    decreases |rs|
  {
    if rs != [] {
      RulesFirst(rs[1..], token);
      forall r | r in Claims(rs[1..], token)
        ensures exists i :: 0 <= i < |rs| && rs[i].rule == r && token in rs[i].lookaheads
      {
        var i :| 0 <= i < |rs[1..]| && rs[1..][i].rule == r && token in rs[1..][i].lookaheads;
        assert rs[i + 1].rule == r;
      }
      forall i | 0 <= i < |rs| && token in rs[i].lookaheads
        ensures rs[i].rule in Claims(rs, token)
      {
        if i > 0 { assert rs[1..][i - 1] == rs[i]; }
      }
    }
  }

  /** The entries after the rules from number `i` on have been recorded. */
  ghost predicate Recorded(s: State, i: nat, actrow: seq<int>, conflrow: seq<nat>) {
    && i <= |s.reductions| && |actrow| == |conflrow|
    && forall j: nat | j < |actrow| :: RecordedAt(s, i, j, actrow[j], conflrow[j])
  }

  predicate RecordedAt(s: State, i: nat, token: nat, act: int, confl: nat)
    requires i <= |s.reductions|
  {
    && act == AsItem(FirstRule(s.reductions[i..], token))
    && confl == if |Claims(s.reductions[i..], token)| > 1 then 1 else 0
  }

  /** One rule more. */
  lemma RecordNext(s: State, i: nat, token: nat, act: int, confl: nat)
    requires i < |s.reductions| && forall i | 0 <= i < |s.reductions| :: s.reductions[i].rule > 0
    requires RecordedAt(s, i + 1, token, act, confl)
    ensures RecordedAt(s, i, token,
      if token in s.reductions[i].lookaheads then AsItem(s.reductions[i].rule) else act,
      if token in s.reductions[i].lookaheads && act != 0 then 1 else confl)
  {
    var rs := s.reductions[i..];
    assert rs[0] == s.reductions[i] && rs[1..] == s.reductions[i + 1..];
    RulesFirst(rs[1..], token);
  }

  /** The loop of `action_row` over the reductions, last rule first. */
  method RecordReductions(s: State, actrow: array<int>, conflrow: array<nat>) returns (conflicted: bool)
    requires actrow.Length == conflrow.Length && forall i | 0 <= i < |s.reductions| :: s.reductions[i].rule > 0
    requires forall j | 0 <= j < actrow.Length :: actrow[j] == 0 && conflrow[j] == 0
    modifies actrow, conflrow
    ensures Recorded(s, 0, actrow[..], conflrow[..])
    ensures conflicted <==> exists j :: 0 <= j < conflrow.Length && conflrow[j] != 0
  {
    conflicted := false;
    var i: nat := |s.reductions|;
    assert s.reductions[i..] == [];
    while i > 0
      invariant i <= |s.reductions| && Recorded(s, i, actrow[..], conflrow[..])
      invariant conflicted <==> exists j :: 0 <= j < conflrow.Length && conflrow[j] != 0
    {
      var more := RecordRule(s, i - 1, i, actrow, conflrow);
      conflicted := conflicted || more;
      i := i - 1;
    }
  }

  /** Its body for rule `i`. */
  method RecordRule(s: State, i: nat, next: nat, actrow: array<int>, conflrow: array<nat>) returns (conflicted: bool)
    requires next == i + 1 && forall i | 0 <= i < |s.reductions| :: s.reductions[i].rule > 0
    requires Recorded(s, next, actrow[..], conflrow[..])
    modifies actrow, conflrow
    ensures Recorded(s, i, actrow[..], conflrow[..])
    ensures (exists j :: 0 <= j < conflrow.Length && conflrow[j] != 0) <==>
      conflicted || exists j :: 0 <= j < conflrow.Length && old(conflrow[j]) != 0
  {
    conflicted := false;
    for j := 0 to actrow.Length
      invariant forall l: nat | l < j :: RecordedAt(s, i, l, actrow[l], conflrow[l])
      invariant forall l: nat | j <= l < actrow.Length :: RecordedAt(s, next, l, actrow[l], conflrow[l])
      invariant forall l | 0 <= l < conflrow.Length && old(conflrow[l]) != 0 :: conflrow[l] != 0
      invariant conflicted ==> exists l :: 0 <= l < conflrow.Length && conflrow[l] != 0
      invariant !conflicted ==> conflrow[..] == old(conflrow[..])
    {
      assert RecordedAt(s, next, j, actrow[j], conflrow[j]);
      RecordNext(s, i, j, actrow[j], conflrow[j]);
      if j in s.reductions[i].lookaheads {
        if actrow[j] != 0 {
          conflicted := true;
          conflrow[j] := 1;
        }
        actrow[j] := AsItem(s.reductions[i].rule);
      }
    }
  }

  /** The entries after the first `i` shifts have been recorded as well. */
  predicate ShiftedAt(s: State, i: nat, token: nat, act: int, confl: nat)
    requires i <= |s.shifts|
  {
    var target := ShiftOn(s.shifts[..i], token);
    && act == (if target > 0 then target else AsItem(FirstRule(s.reductions, token)))
    && confl == if |Claims(s.reductions, token)| + (if target > 0 then 1 else 0) > 1 then 1 else 0
  }

  lemma ShiftNext(o: Settings, s: State, i: nat, token: nat, act: int, confl: nat)
    requires i < |s.shifts| && Proper(o, s) && ShiftedAt(s, i, token, act, confl)
    ensures if token != s.shifts[i].token then ShiftedAt(s, i + 1, token, act, confl)
      else ShiftedAt(s, i + 1, token, s.shifts[i].target, if act != 0 then 1 else confl)
    ensures ShiftOn(s.shifts[..i + 1], token) > 0 <==>
      ShiftOn(s.shifts[..i], token) > 0 || token == s.shifts[i].token
  {
    assert s.shifts[..i + 1][..i] == s.shifts[..i];
    RulesFirst(s.reductions, token);
    if token == s.shifts[i].token { NotYetShifted(s.shifts[..i], token); }
  }

  lemma {:induction false} NotYetShifted(ts: seq<Transition>, token: nat)
    requires forall i | 0 <= i < |ts| :: ts[i].token != token
    ensures ShiftOn(ts, token) == 0
    decreases |ts|
  {
    if ts != [] { NotYetShifted(ts[..|ts| - 1], token); }
  }

  /** The loop over the shifts, which are preferred to reductions. */
  method RecordShifts(o: Settings, s: State, actrow: array<int>, conflrow: array<nat>)
    returns (conflicted: bool, nodefault: bool)
    requires Proper(o, s) && actrow.Length == conflrow.Length == o.ntokens
    requires forall j: nat | j < o.ntokens :: ShiftedAt(s, 0, j, actrow[j], conflrow[j])
    modifies actrow, conflrow
    ensures forall j: nat | j < o.ntokens :: ShiftedAt(s, |s.shifts|, j, actrow[j], conflrow[j])
    ensures nodefault <==> ShiftOn(s.shifts, o.errTok) > 0
    ensures (exists j :: 0 <= j < conflrow.Length && conflrow[j] != 0) <==>
      conflicted || exists j :: 0 <= j < conflrow.Length && old(conflrow[j]) != 0
  {
    hide Claims, FirstRule;
    conflicted, nodefault := false, false;
    for i := 0 to |s.shifts|
      invariant forall j: nat | j < o.ntokens :: ShiftedAt(s, i, j, actrow[j], conflrow[j])
      invariant nodefault <==> ShiftOn(s.shifts[..i], o.errTok) > 0
      invariant forall l | 0 <= l < conflrow.Length && old(conflrow[l]) != 0 :: conflrow[l] != 0
      invariant conflicted ==> exists l :: 0 <= l < conflrow.Length && conflrow[l] != 0
      invariant !conflicted ==> conflrow[..] == old(conflrow[..])
    {
      var sym := s.shifts[i].token;
      forall j: nat | j < o.ntokens
        ensures if j != sym then ShiftedAt(s, i + 1, j, actrow[j], conflrow[j])
          else ShiftedAt(s, i + 1, j, s.shifts[i].target, if actrow[j] != 0 then 1 else conflrow[j])
      {
        ShiftNext(o, s, i, j, actrow[j], conflrow[j]);
      }
      ErrorShift(o, s, i);
      if actrow[sym] != 0 {
        conflicted := true;
        conflrow[sym] := 1;
      }
      actrow[sym] := s.shifts[i].target;
      if sym == o.errTok {
        nodefault := true;
      }
    }
    assert s.shifts[..|s.shifts|] == s.shifts;
  }

  lemma ErrorShift(o: Settings, s: State, i: nat)
    requires i < |s.shifts| && Proper(o, s)
    ensures ShiftOn(s.shifts[..i + 1], o.errTok) > 0 <==>
      ShiftOn(s.shifts[..i], o.errTok) > 0 || o.errTok == s.shifts[i].token
  {
    assert s.shifts[..i + 1][..i] == s.shifts[..i];
  }

  /** What the entries of a token are before there is a default: the action wanted, and whether others compete. */
  predicate Settled(s: State, token: nat, act: int, confl: nat) {
    act == Wanted(s, token) && confl == if Torn(s, token) then 1 else 0
  }

  /** The loop over the tokens that are to raise an error. */
  method RecordErrors(o: Settings, s: State, actrow: array<int>, conflrow: array<nat>)
    requires Proper(o, s) && actrow.Length == conflrow.Length == o.ntokens
    requires forall j: nat | j < o.ntokens :: ShiftedAt(s, |s.shifts|, j, actrow[j], conflrow[j])
    modifies actrow
    ensures forall j: nat | j < o.ntokens :: Settled(s, j, actrow[j], conflrow[j])
  {
    hide ShiftOn, Claims, FirstRule;
    assert s.shifts[..|s.shifts|] == s.shifts && s.errors[..|s.errors|] == s.errors;
    ghost var before := actrow[..];
    for i := 0 to |s.errors|
      invariant forall j: nat | j < o.ntokens :: actrow[j] == if j in s.errors[..i] then ERROR else before[j]
    {
      actrow[s.errors[i]] := ERROR;
    }
  }

  function Count(row: seq<int>, x: int): nat {
    if row == [] then 0 else Count(row[..|row| - 1], x) + if row[|row| - 1] == x then 1 else 0
  }

  lemma {:induction false} CountSome(row: seq<int>, x: int)
    ensures Count(row, x) > 0 <==> x in row
    decreases |row|
  {
    if row != [] {
      CountSome(row[..|row| - 1], x);
      assert row == row[..|row| - 1] + [row[|row| - 1]];
    }
  }

  /** `d` is the first of the rules that most tokens call for, or 0 if none calls for any. */
  ghost predicate Commonest(rs: seq<Reduction>, row: seq<int>, d: nat) {
    if d == 0 then forall i | 0 <= i < |rs| :: AsItem(rs[i].rule) !in row
    else
      exists b: nat :: b < |rs| && rs[b].rule == d && AsItem(d) in row
        && (forall i | 0 <= i < b :: Count(row, AsItem(rs[i].rule)) < Count(row, AsItem(d)))
        && forall i | b <= i < |rs| :: Count(row, AsItem(rs[i].rule)) <= Count(row, AsItem(d))
  }

  /** The search for it. */
  method FindCommonest(s: State, actrow: array<int>) returns (d: nat)
    requires forall i | 0 <= i < |s.reductions| :: s.reductions[i].rule > 0
    ensures Commonest(s.reductions, actrow[..], d)
  {
    var max := 0;
    d := 0;
    ghost var row, b: nat := actrow[..], 0;
    for i := 0 to |s.reductions|
      invariant d == 0 <==> max == 0
      invariant forall l | 0 <= l < i :: Count(row, AsItem(s.reductions[l].rule)) <= max
      invariant d > 0 ==> b < i && s.reductions[b].rule == d && Count(row, AsItem(d)) == max
      invariant d > 0 ==> forall l | 0 <= l < b :: Count(row, AsItem(s.reductions[l].rule)) < max
    {
      var count: nat := 0;
      for j := 0 to actrow.Length
        invariant count == Count(row[..j], AsItem(s.reductions[i].rule))
      {
        assert row[..j + 1][..j] == row[..j];
        if actrow[j] == AsItem(s.reductions[i].rule) {
          count := count + 1;
        }
      }
      assert row[..actrow.Length] == row;
      if count > max {
        max, d, b := count, s.reductions[i].rule, i;
      }
    }
    if d > 0 {
      CountSome(row, AsItem(d));
    } else {
      forall i | 0 <= i < |s.reductions|
        ensures AsItem(s.reductions[i].rule) !in row
      {
        CountSome(row, AsItem(s.reductions[i].rule));
      }
    }
  }

  /** No default reduction: the state shifts the error token, or the settings forbid it. */
  predicate Undefaulted(o: Settings, s: State) {
    ShiftOn(s.shifts, o.errTok) > 0 || (!o.mostDefaults && !s.consistent) || s.reductions == []
  }

  /** The default reduction of a state with the actions `row`, or 0. */
  ghost predicate IsDefault(o: Settings, s: State, row: seq<int>, d: nat) {
    if Undefaulted(o, s) then d == 0
    else if s.consistent then d == s.reductions[0].rule
    else Commonest(s.reductions, row, d)
  }

  /** The entry of a token once there is the default `d`: none for what the default does anyway. */
  function Remaining(o: Settings, s: State, d: nat, act: int, confl: nat): int {
    if d == 0 then if act == ERROR then 0 else act
    else if !s.consistent && act == AsItem(d) && !(o.glr && confl != 0) then 0
    else act
  }

  /** The rules of an entry's list of conflicts: all that compete with it. */
  function Rivals(rs: seq<Reduction>, token: nat, act: int): seq<nat> {
    if rs == [] then []
    else
      (if token in rs[0].lookaheads && act != AsItem(rs[0].rule) then [rs[0].rule] else []) +
      Rivals(rs[1..], token, act)
  }

  /** A list that ends with 0 starts at `i` of `lists`. */
  predicate ListedAt(lists: seq<nat>, i: nat, rs: seq<nat>) {
    i + |rs| < |lists| && lists[i..i + |rs|] == rs && lists[i + |rs|] == 0
  }

  /** The entries of a token that come out: what is left by the default, and where its list of conflicts is. */
  predicate FinalAt(o: Settings, s: State, d: nat, token: nat, act: int, confl: nat, lists: seq<nat>) {
    && act == Remaining(o, s, d, Wanted(s, token), if Torn(s, token) then 1 else 0)
    && if o.glr && Torn(s, token) then confl > 0 && ListedAt(lists, confl, Rivals(s.reductions, token, act))
       else o.glr ==> confl == 0
  }

  /** The last loops of `action_row`: entries that the default makes superfluous are taken out. */
  method Default(o: Settings, s: State, nodefault: bool, actrow: array<int>, conflrow: array<nat>) returns (d: nat)
    requires Proper(o, s) && actrow.Length == conflrow.Length == o.ntokens
    requires nodefault <==> ShiftOn(s.shifts, o.errTok) > 0
    modifies actrow
    ensures IsDefault(o, s, old(actrow[..]), d)
    ensures forall j: nat | j < o.ntokens :: actrow[j] == Remaining(o, s, d, old(actrow[j]), conflrow[j])
  {
    hide ShiftOn, Commonest;
    ghost var before := actrow[..];
    var none := nodefault || (!o.mostDefaults && !s.consistent);
    d := 0;
    if |s.reductions| >= 1 && !none {
      if s.consistent {
        d := s.reductions[0].rule;
      } else {
        d := FindCommonest(s, actrow);
        if d > 0 {
          for j := 0 to actrow.Length
            modifies actrow
            invariant forall l: nat | l < j :: actrow[l] == Remaining(o, s, d, before[l], conflrow[l])
            invariant forall l | j <= l < actrow.Length :: actrow[l] == before[l]
          {
            if actrow[j] == AsItem(d) && !(o.glr && conflrow[j] != 0) {
              actrow[j] := 0;
            }
          }
        }
      }
    }
    if d == 0 {
      for j := 0 to actrow.Length
        modifies actrow
        invariant forall l: nat | l < j :: actrow[l] == Remaining(o, s, 0, before[l], conflrow[l])
        invariant forall l | j <= l < actrow.Length :: actrow[l] == before[l]
      {
        if actrow[j] == ERROR {
          actrow[j] := 0;
        }
      }
    }
  }

  lemma {:induction false} ListedMore(lists: seq<nat>, more: seq<nat>, i: nat, rs: seq<nat>)
    requires ListedAt(lists, i, rs) && lists <= more
    ensures ListedAt(more, i, rs)
  {
    assert more[i..i + |rs|] == lists[i..i + |rs|];
  }

  lemma RivalsNext(rs: seq<Reduction>, i: nat, token: nat, act: int)
    requires i < |rs|
    ensures Rivals(rs[i..], token, act) ==
      (if token in rs[i].lookaheads && act != AsItem(rs[i].rule) then [rs[i].rule] else []) +
      Rivals(rs[i + 1..], token, act)
  {
    assert rs[i..][1..] == rs[i + 1..];
  }

  /** The inner loop of `conflict_row`. */
  method AppendRivals(s: State, token: nat, act: int, lists: seq<nat>) returns (lists': seq<nat>)
    ensures lists' == lists + Rivals(s.reductions, token, act) + [0]
  {
    lists' := lists;
    assert s.reductions[0..] == s.reductions;
    for i := 0 to |s.reductions|
      invariant lists' + Rivals(s.reductions[i..], token, act) == lists + Rivals(s.reductions, token, act)
    {
      RivalsNext(s.reductions, i, token, act);
      if token in s.reductions[i].lookaheads && act != AsItem(s.reductions[i].rule) {
        lists' := lists' + [s.reductions[i].rule];
      }
    }
    lists' := lists' + [0];
  }

  /** `conflict_row`. */
  method ConflictRow(o: Settings, s: State, actrow: array<int>, conflrow: array<nat>, lists: seq<nat>)
    returns (lists': seq<nat>)
    requires actrow.Length == conflrow.Length && lists != []
    modifies conflrow
    ensures lists <= lists'
    ensures !o.glr ==> conflrow[..] == old(conflrow[..])
    ensures o.glr ==> forall j: nat | j < conflrow.Length ::
      if old(conflrow[j]) == 0 then conflrow[j] == 0
      else conflrow[j] > 0 && ListedAt(lists', conflrow[j], Rivals(s.reductions, j, actrow[j]))
  {
    hide Rivals, ListedAt;
    lists' := lists;
    if !o.glr {
      return;
    }
    ghost var before := conflrow[..];
    for j := 0 to conflrow.Length
      modifies conflrow
      invariant lists <= lists'
      invariant forall l: nat | l < j ::
        if before[l] == 0 then conflrow[l] == 0
        else conflrow[l] > 0 && ListedAt(lists', conflrow[l], Rivals(s.reductions, l, actrow[l]))
      invariant forall l | j <= l < conflrow.Length :: conflrow[l] == before[l]
    {
      if conflrow[j] != 0 {
        ghost var shorter := lists';
        conflrow[j] := |lists'|;
        lists' := AppendRivals(s, j, actrow[j], lists');
        Appended(shorter, lists', Rivals(s.reductions, j, actrow[j]));
        forall l: nat | l < j && before[l] != 0
          ensures ListedAt(lists', conflrow[l], Rivals(s.reductions, l, actrow[l]))
        {
          ListedMore(shorter, lists', conflrow[l], Rivals(s.reductions, l, actrow[l]));
        }
      }
    }
  }

  lemma Appended(lists: seq<nat>, lists': seq<nat>, rs: seq<nat>)
    requires lists' == lists + rs + [0]
    ensures ListedAt(lists', |lists|, rs) && lists <= lists'
  {
  }

  /** `action_row`: the entries of state `s`, and its default reduction or 0. */
  method ActionRow(o: Settings, s: State, actrow: array<int>, conflrow: array<nat>, lists: seq<nat>)
    returns (d: nat, lists': seq<nat>)
    requires Proper(o, s) && actrow.Length == conflrow.Length == o.ntokens && lists != []
    modifies actrow, conflrow
    ensures lists <= lists' && exists row :: Called(o, s, row) && IsDefault(o, s, row, d)
    ensures forall j: nat | j < o.ntokens :: FinalAt(o, s, d, j, actrow[j], conflrow[j], lists')
  {
    hide Torn, Wanted, ShiftOn, FirstRule, Claims, Rivals, ListedAt, Commonest, IsDefault;
    for j := 0 to o.ntokens
      modifies actrow, conflrow
      invariant forall l | 0 <= l < j :: actrow[l] == 0 && conflrow[l] == 0
    {
      actrow[j], conflrow[j] := 0, 0;
    }
    var conflicted := RecordReductions(s, actrow, conflrow);
    NoShiftYet(s, actrow[..], conflrow[..]);
    var more, nodefault := RecordShifts(o, s, actrow, conflrow);
    conflicted := conflicted || more;
    RecordErrors(o, s, actrow, conflrow);
    ghost var row, torn := actrow[..], conflrow[..];
    assert Called(o, s, row);
    d := Default(o, s, nodefault, actrow, conflrow);
    lists' := lists;
    if conflicted {
      lists' := ConflictRow(o, s, actrow, conflrow, lists);
    }
    forall j: nat | j < o.ntokens
      ensures FinalAt(o, s, d, j, actrow[j], conflrow[j], lists')
    {
      assert Settled(s, j, row[j], torn[j]);
    }
  }

  /** The actions that a state calls for, by token. */
  predicate Called(o: Settings, s: State, row: seq<int>) {
    |row| == o.ntokens && forall j | 0 <= j < o.ntokens :: row[j] == Wanted(s, j)
  }

  lemma NoShiftYet(s: State, actrow: seq<int>, conflrow: seq<nat>)
    requires Recorded(s, 0, actrow, conflrow)
    ensures forall j: nat | j < |actrow| :: ShiftedAt(s, 0, j, actrow[j], conflrow[j])
  {
    assert s.reductions[0..] == s.reductions && s.shifts[..0] == [];
    forall j: nat | j < |actrow|
      ensures ShiftedAt(s, 0, j, actrow[j], conflrow[j])
    {
      assert RecordedAt(s, 0, j, actrow[j], conflrow[j]);
    }
  }

  /** The entries of the tokens below `n` that have one, in order. */
  predicate Saves(o: Settings, v: Vector, actrow: seq<int>, conflrow: seq<nat>, n: nat)
    requires n <= |actrow| == |conflrow|
  {
    && IsVector(v)
    && (forall k | 0 <= k < |v.froms| ::
          && v.froms[k] < n && v.tos[k] == actrow[v.froms[k]]
          && v.conflicts[k] == if o.glr then conflrow[v.froms[k]] else 0)
    && forall j: nat | j < n && actrow[j] != 0 :: j in v.froms
  }

  /** `save_row`; the lists of conflicts are kept for a GLR parser only. */
  method SaveRow(o: Settings, actrow: array<int>, conflrow: array<nat>) returns (v: Vector)
    requires actrow.Length == conflrow.Length && forall j | 0 <= j < actrow.Length :: actrow[j] >= ERROR
    ensures Saves(o, v, actrow[..], conflrow[..], actrow.Length)
  {
    v := Vector([], [], []);
    for j := 0 to actrow.Length
      invariant Saves(o, v, actrow[..], conflrow[..], j)
    {
      if actrow[j] != 0 {
        ghost var u := v;
        v := Vector(v.froms + [j], v.tos + [actrow[j]], v.conflicts + [if o.glr then conflrow[j] else 0]);
        SavesNext(o, u, v, actrow[..], conflrow[..], j);
      }
    }
  }

  lemma SavesNext(o: Settings, u: Vector, v: Vector, actrow: seq<int>, conflrow: seq<nat>, j: nat)
    requires j < |actrow| == |conflrow| && Saves(o, u, actrow, conflrow, j) && actrow[j] != 0 && actrow[j] >= ERROR
    requires v == Vector(u.froms + [j], u.tos + [actrow[j]], u.conflicts + [if o.glr then conflrow[j] else 0])
    ensures Saves(o, v, actrow, conflrow, j + 1)
  {
    assert v.froms[|u.froms|] == j;
    forall l: nat | l < j + 1 && actrow[l] != 0
      ensures l in v.froms
    {
      if l < j { assert l in u.froms; }
    }
  }
}
