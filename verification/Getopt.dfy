/** GNU `getopt` in its permuting mode, for short options: a scanner that is resumed call by call
    and moves the elements of `argv` while it scans. */
module Getopt {
  import opened GetoptSpec

  /** `s` with the adjacent blocks `[b, m)` and `[m, t)` interchanged. */
  function Rotated<T>(s: seq<T>, b: nat, m: nat, t: nat): seq<T>
    requires b <= m <= t <= |s|
  {
    seq(|s|, i requires 0 <= i < |s| =>
      if i < b || t <= i then s[i] else if i < b + t - m then s[i + m - b] else s[i - t + m])
  }

  /** Where the blocks are afterwards; the elements below and above them stay. */
  lemma RotatedSlices<T>(s: seq<T>, b: nat, m: nat, t: nat)
    requires 1 <= b <= m <= t <= |s|
    ensures var s' := Rotated(s, b, m, t); var k := b + t - m;
      && |s'| == |s| && s'[0] == s[0]
      && s'[1..k] == s[1..b] + s[m..t]
      && s'[k..t] == s[b..m]
      && s'[t..] == s[t..]
  {
  }

  /** `s` with the blocks of length `len` at `i` and at `j` interchanged. */
  function Swapped<T>(s: seq<T>, i: nat, j: nat, len: nat): seq<T>
    requires i + len <= j && j + len <= |s|
  {
    seq(|s|, n requires 0 <= n < |s| =>
      if i <= n < i + len then s[n + j - i] else if j <= n < j + len then s[n - j + i] else s[n])
  }

  /** Swapping the lower block with the far end of a longer upper block puts it in its place. */
  lemma SwapBottom<T>(s: seq<T>, b: nat, m: nat, t: nat)
    requires b < m && m - b < t - m && t <= |s|
    ensures var len := m - b; var s' := Swapped(s, b, t - len, len);
      |s'| == |s| && Rotated(s', b, m, t - len) == Rotated(s, b, m, t)
  {
  }

  /** Swapping the upper block with the near end of a lower block that is no shorter does, too. */
  lemma SwapTop<T>(s: seq<T>, b: nat, m: nat, t: nat)
    requires b <= m < t <= |s| && t - m <= m - b
    ensures var len := t - m; var s' := Swapped(s, b, m, len);
      |s'| == |s| && Rotated(s', b + len, m, t) == Rotated(s, b, m, t)
  {
  }

  /** One of the two inner loops of `exchange`. */
  method SwapBlocks<T>(a: array<T>, i: nat, j: nat, len: nat)
    requires i + len <= j && j + len <= a.Length
    modifies a
    ensures a[..] == Swapped(old(a[..]), i, j, len)
  {
    for k := 0 to len
      invariant forall n | i <= n < i + k :: a[n] == old(a[n + j - i])
      invariant forall n | j <= n < j + k :: a[n] == old(a[n - j + i])
      invariant forall n | 0 <= n < a.Length && !(i <= n < i + k) && !(j <= n < j + k) :: a[n] == old(a[n])
    {
      a[i + k], a[j + k] := a[j + k], a[i + k];
    }
  }

  /** The block interchange at the heart of `exchange`, in place. */
  method Rotate<T>(a: array<T>, b: nat, m: nat, t: nat)
    requires b <= m <= t <= a.Length
    modifies a
    ensures a[..] == Rotated(old(a[..]), b, m, t)
  {
    hide Rotated, Swapped;
    var bottom: nat, top: nat := b, t;
    while top > m && m > bottom
      invariant bottom <= m <= top <= a.Length
      invariant Rotated(a[..], bottom, m, top) == Rotated(old(a[..]), b, m, t)
      decreases top - bottom
    {
      if top - m > m - bottom {
        var len := m - bottom;
        SwapBottom(a[..], bottom, m, top);
        SwapBlocks(a, bottom, top - len, len);
        top := top - len;
      } else {
        var len := top - m;
        SwapTop(a[..], bottom, m, top);
        SwapBlocks(a, bottom, m, len);
        bottom := bottom + len;
      }
    }
    RotatedNothing(a[..], bottom, m, top);
  }

  lemma RotatedNothing<T>(s: seq<T>, b: nat, m: nat, t: nat)
    requires b <= m <= t <= |s| && (b == m || m == t)
    ensures Rotated(s, b, m, t) == s
  {
  }

  /** How the outcome of a scan changes by a return: there is one result less to come, or, after the last of an
      endless scan, those that come again. */
  ghost predicate Goes(p: Plan, p': Plan) {
    && p.results != []
    && p' == p.(results := if p.Endless() && |p.results| == 1 then p.again else p.results[1..])
  }

  class Scanner {
    const optstring: string
    ghost const original: seq<string>
    var argv: array<string>
    var optind: nat
    var firstNonopt: nat         // __first_nonopt
    var lastNonopt: nat          // __last_nonopt
    var rest: string             // what __nextchar points to; empty for NULL as well

    /** `argv` is the program name, the options met so far that have been moved, the non-options
        skipped, the options met since, and the part of the original vector not yet scanned. */
    ghost predicate Valid()
      reads this, argv
    {
      && argv.Length == |original|
      && 1 <= firstNonopt <= lastNonopt <= optind <= argv.Length
      && argv[0] == original[0]
      && argv[optind..] == original[optind..]
      && (rest != "" ==> optind < argv.Length && InCluster(optstring, original[optind], rest))
      && (optstring != "" ==> optstring[0] != '-' && optstring[0] != '+')
    }

    /** The elements found so far to be options or arguments of options. */
    ghost function Opts(): seq<string>
      requires Valid()
      reads this, argv
    {
      argv[1..firstNonopt] + argv[lastNonopt..optind]
    }

    ghost function Nonopts(): seq<string>
      requires Valid()
      reads this, argv
    {
      argv[firstNonopt..lastNonopt]
    }

    /** What is still to come. */
    ghost function Ahead(): Plan
      requires Valid()
      reads this, argv
    {
      if rest == "" then PlanFrom(optstring, original, optind) else Cluster(optstring, original, optind, rest)
    }

    constructor (argv: array<string>, optstring: string)
      requires argv.Length > 0
      requires optstring != "" ==> optstring[0] != '-' && optstring[0] != '+'
      ensures Valid() && this.argv == argv && this.optstring == optstring && original == old(argv[..])
      ensures Opts() == [] && Nonopts() == [] && optind == 1 && Whole() == PlanFrom(optstring, original, 1)
    {
      this.argv, this.optstring, original := argv, optstring, argv[..];
      optind, firstNonopt, lastNonopt, rest := 1, 1, 1, "";
    }

    /** `exchange`. */
    method Exchange()
      requires Valid() && rest == ""
      modifies this, argv
      ensures Valid() && argv == old(argv) && lastNonopt == optind == old(optind) && rest == ""
      ensures Opts() == old(Opts()) && Nonopts() == old(Nonopts())
      ensures firstNonopt == 1 + |Opts()|
    {
      hide PlanFrom, Cluster, Rotated;
      ghost var s := argv[..];
      RotatedSlices(s, firstNonopt, lastNonopt, optind);
      Rotate(argv, firstNonopt, lastNonopt, optind);
      ghost var s' := argv[..];
      firstNonopt := firstNonopt + (optind - lastNonopt);
      lastNonopt := optind;
      assert argv[optind..] == s'[optind..] && argv[1..firstNonopt] == s'[1..firstNonopt];
      assert argv[firstNonopt..lastNonopt] == s'[firstNonopt..lastNonopt] && argv[lastNonopt..optind] == [];
    }

    /** The outcome of the whole scan, as far as it is decided and as far as it is still ahead. */
    ghost function Whole(): Plan
      requires Valid()
      reads this, argv
    {
      Ahead().(opts := Opts() + Ahead().opts, nonopts := Nonopts() + Ahead().nonopts)
    }

    /** Move the options met since the last non-options in front of these. */
    method Regroup()
      requires Valid() && rest == ""
      modifies this, argv
      ensures Valid() && argv == old(argv) && rest == "" && optind == old(optind)
      ensures Opts() == old(Opts()) && Nonopts() == old(Nonopts())
      ensures lastNonopt == optind && firstNonopt == 1 + |Opts()|
    {
      if firstNonopt != lastNonopt && lastNonopt != optind {
        Exchange();
      } else if lastNonopt != optind {
        firstNonopt := optind;
        lastNonopt := optind;
      }
    }

    /** Skip non-options, extending the range of those skipped before. */
    method SkipNonOptions()
      requires Valid() && rest == "" && lastNonopt == optind
      modifies this`optind, this`lastNonopt
      ensures Valid() && Whole() == old(Whole()) && Opts() == old(Opts()) && lastNonopt == optind
      ensures optind < argv.Length ==> !IsNonOption(argv[optind])
    {
      while optind < argv.Length && IsNonOption(argv[optind])
        invariant Valid() && lastNonopt == optind
        invariant Opts() == old(Opts()) && Whole() == old(Whole())
        decreases argv.Length - optind
      {
        SkipNonOption();
      }
    }

    method SkipNonOption()
      requires Valid() && rest == "" && lastNonopt == optind < argv.Length && IsNonOption(argv[optind])
      modifies this`optind, this`lastNonopt
      ensures Valid() && Whole() == old(Whole()) && Opts() == old(Opts()) && lastNonopt == optind == old(optind) + 1
    {
      hide PlanFrom;
      SkipOne(argv[..], firstNonopt, optind);
      optind := optind + 1;
      lastNonopt := optind;
    }

    lemma SkipOne(s: seq<string>, b: nat, i: nat)
      requires |s| == |original| && b <= i < |s| && s[i..] == original[i..] && IsNonOption(s[i])
      ensures s[i + 1..] == original[i + 1..]
      ensures var p := PlanFrom(optstring, original, i); var p' := PlanFrom(optstring, original, i + 1);
        p == p'.(nonopts := p.nonopts) && s[b..i] + p.nonopts == s[b..i + 1] + p'.nonopts
    {
      assert s[i] == s[i..][0] == original[i];
      assert s[i + 1..] == s[i..][1..];
      assert s[b..i + 1] == s[b..i] + [s[i]];
    }

    /** The advance to the next element in permuting mode. */
    method Permute()
      requires Valid() && rest == ""
      modifies this, argv
      ensures Valid() && argv == old(argv) && rest == "" && Whole() == old(Whole())
      ensures lastNonopt == optind && firstNonopt == 1 + |Opts()|
      ensures optind < argv.Length ==> !IsNonOption(argv[optind])
    {
      Regroup();
      SkipNonOptions();
    }

    lemma AtDashes(s: seq<string>, i: nat)
      requires |s| == |original| && i < |s| && s[i..] == original[i..] && s[i] == "--"
      ensures s[i + 1..] == original[i + 1..]
      ensures PlanFrom(optstring, original, i) == Plan(["--"], [], original[i + 1..], [], [])
    {
      assert s[i] == s[i..][0] == original[i];
      assert s[i + 1..] == s[i..][1..];
    }

    /** Treat "--" like an option, and everything after it like non-options. */
    method EndOptions()
      requires Valid() && rest == "" && lastNonopt == optind && firstNonopt == 1 + |Opts()|
      requires optind < argv.Length && argv[optind] == "--"
      modifies this, argv
      ensures argv == old(argv) && lastNonopt == optind == argv.Length && firstNonopt == 1 + |old(Whole()).opts|
      ensures var p := old(Whole());
        p.results == [] && !p.Endless() && argv[..] == [original[0]] + p.opts + p.nonopts + p.tail
    {
      hide PlanFrom, Cluster, InCluster;
      ghost var opts, nonopts, tail := Opts(), Nonopts(), original[optind + 1..];
      AtDashes(argv[..], optind);
      assert Whole() == Plan(opts + ["--"], nonopts + [], tail, [], []);
      optind := optind + 1;
      assert Opts() == opts + ["--"];
      Regroup();
      assert Opts() == opts + ["--"] && Nonopts() == nonopts && argv[optind..] == tail;
      Parts(argv[..], firstNonopt, optind);
      assert argv[..][1..firstNonopt] == opts + ["--"];
      assert argv[..][firstNonopt..optind] == nonopts && argv[..][optind..] == tail;
      lastNonopt := argv.Length;
      optind := argv.Length;
    }

    /** Treat "--", or start on an option element; the result is false when nothing is left to
        scan, and `optind` is then the index of the first non-option. */
    method StartElement() returns (more: bool)
      requires Valid() && rest == "" && lastNonopt == optind && firstNonopt == 1 + |Opts()|
      requires optind < argv.Length ==> !IsNonOption(argv[optind])
      modifies this, argv
      ensures argv == old(argv)
      ensures more ==> Valid() && rest != "" && Whole() == old(Whole())
      ensures !more ==>
        && var p := old(Whole());
        && p.results == [] && !p.Endless()
        && argv[..] == [original[0]] + p.opts + p.nonopts + p.tail
        && optind == 1 + |p.opts|
    {
      hide PlanFrom, Cluster, IsNonOption;
      AtElement(argv[..], optind);
      if optind == argv.Length {
        Parts(argv[..], firstNonopt, optind);
        assert Whole() == Plan(Opts(), Nonopts(), [], [], []);
      }
      if optind != argv.Length && argv[optind] == "--" {
        EndOptions();
      }
      if optind == argv.Length {
        if firstNonopt != lastNonopt {
          optind := firstNonopt;
        }
        return false;
      }
      rest := argv[optind][1..];
      return true;
    }

    /** What the scan comes to at an option element, and at the end. */
    lemma AtElement(s: seq<string>, i: nat)
      requires |s| == |original| && i <= |s| && s[i..] == original[i..]
      ensures i == |s| ==> PlanFrom(optstring, original, i) == Plan([], [], [], [], [])
      ensures i < |s| && !IsNonOption(s[i]) && s[i] != "--" ==>
        |s[i]| > 1 && PlanFrom(optstring, original, i) == Cluster(optstring, original, i, s[i][1..])
    {
      hide Cluster;
      if i < |s| { assert s[i] == s[i..][0] == original[i]; }
    }

    /** Leave `more` of the current element for the next call. */
    method Step(more: string)
      requires Valid() && rest != ""
      requires more != "" ==> more == rest[1..] && Plain(optstring, rest[0])
      modifies this`optind, this`rest
      ensures Valid() && optind == old(optind) + (if more == "" then 1 else 0) && rest == more
      ensures var p := Resume(optstring, original, old(optind), more);
        && Whole() == p.(opts := old(Opts()) + p.opts, nonopts := old(Nonopts()) + p.nonopts)
        && (p.Endless() ==> p.results != [])
    {
      hide PlanFrom, Cluster, AllPlain, Plain;
      EndlessResumes(optstring, original, optind, more);
      if more != "" { ClusterMore(optstring, original[optind], rest); }
      if more == "" {
        TakeElements(argv[..], lastNonopt, optind, 1);
        optind := optind + 1;
      }
      rest := more;
    }

    lemma TakeElements(s: seq<string>, b: nat, i: nat, n: nat)
      requires |s| == |original| && b <= i && i + n <= |s| && s[i..] == original[i..]
      ensures s[b..i + n] == s[b..i] + original[i..i + n]
      ensures s[i + n..] == original[i + n..]
      ensures n > 0 ==> s[i] == original[i]
      ensures n == 1 ==> original[i..i + n] == [original[i]]
      ensures n == 2 ==> original[i..i + n] == [original[i], original[i + 1]] && s[i + 1] == original[i + 1]
    {
      assert s[i..][..n] == original[i..][..n];
      assert s[i..][n..] == original[i..][n..];
      if n > 0 { assert s[i] == s[i..][0] == original[i]; }
      if n == 2 { assert s[i + 1] == s[i..][1] == original[i + 1]; }
    }

    /** Leave the current element, and take the next one as the argument of an option. */
    method TakeArgument() returns (arg: string)
      requires Valid() && rest != "" && optind + 1 < argv.Length
      modifies this`optind, this`rest
      ensures Valid() && arg == original[old(optind) + 1]
      ensures var i := old(optind); var p := PlanFrom(optstring, original, i + 2);
        && Whole() ==
           p.(opts := old(Opts()) + ([original[i], original[i + 1]] + p.opts), nonopts := old(Nonopts()) + p.nonopts)
        && (p.Endless() ==> p.results != [])
    {
      hide PlanFrom, Cluster, InCluster;
      TakeElements(argv[..], lastNonopt, optind, 2);
      EndlessGoesOn(optstring, original, optind + 2);
      rest := "";
      optind := optind + 1;
      arg := argv[optind];
      optind := optind + 1;
    }

    /** "Look at and handle the next short option-character." */
    method Decode() returns (r: Ret)
      requires Valid() && rest != ""
      modifies this`optind, this`rest
      ensures Valid() && var p := old(Whole()); p.results != [] && r == p.results[0]
      ensures Goes(old(Whole()), Whole())
    {
      hide PlanFrom;
      var c := rest[0];
      var more := rest[1..];
      var at := Find(optstring, c);
      if at == |optstring| || c == ':' || c == ';' {
        Step(more);
        return Ret('?', None, Some(c));
      }
      if optstring[at] == 'W' && CharAt(optstring, at + 1) == ';' {
        r := DecodeLong();
        return;
      }
      if CharAt(optstring, at + 1) == ':' {
        r := DecodeArgument(at);
        return;
      }
      Step(more);
      return Ret(c, None, None);
    }

    /** The part of it for a long W: without long options the element is left only if the W ends it. */
    method DecodeLong() returns (r: Ret)
      requires Valid() && rest != "" && KindOf(optstring, rest[0]).LongW?
      modifies this`optind, this`rest
      ensures Valid() && var p := old(Whole()); p.results != [] && r == p.results[0]
      ensures Goes(old(Whole()), Whole())
    {
      hide PlanFrom, KindOf;
      if rest[1..] == "" {
        Step("");
      } else {
        HangsAgain(optstring, original, optind, rest);
        rest := "";
      }
      return Ret('W', None, None);
    }

    /** The part of it for an option, found at `optstring[at]`, that takes an argument. */
    method DecodeArgument(at: nat) returns (r: Ret)
      requires Valid() && rest != "" && at == Find(optstring, rest[0]) < |optstring| && CharAt(optstring, at + 1) == ':'
      requires KindOf(optstring, rest[0]).Optional? || KindOf(optstring, rest[0]).Required?
      modifies this`optind, this`rest
      ensures Valid() && var p := old(Whole()); p.results != [] && r == p.results[0]
      ensures Goes(old(Whole()), Whole())
    {
      hide PlanFrom;
      var c := rest[0];
      var more := rest[1..];
      if CharAt(optstring, at + 2) == ':' {
        Step("");
        return Ret(c, if more == "" then None else Some(more), None);
      }
      if more != "" {
        Step("");
        return Ret(c, Some(more), None);
      }
      if optind + 1 == argv.Length {
        Step("");
        return Ret(MissingCode(optstring), None, Some(c));
      }
      var arg := TakeArgument();
      return Ret(c, Some(arg), None);
    }

    /** One call of `getopt`; `None` stands for -1. */
    method Next() returns (r: Option<Ret>)
      requires Valid()
      modifies this, argv
      ensures argv == old(argv)
      ensures r == None <==> old(Whole()).results == []
      ensures r != None ==>
        && Valid() && r.value == old(Whole()).results[0]
        && Goes(old(Whole()), Whole())
      ensures r == None ==>
        && var p := old(Whole());
        && !p.Endless()
        && argv[..] == [original[0]] + p.opts + p.nonopts + p.tail
        && optind == 1 + |p.opts|
    {
      if rest == "" {
        Permute();
        var more := StartElement();
        if !more {
          return None;
        }
      }
      var ret := Decode();
      return Some(ret);
    }
  }

  lemma Parts<T>(s: seq<T>, a: nat, b: nat)
    requires 1 <= a <= b <= |s|
    ensures s == [s[0]] + s[1..a] + s[a..b] + s[b..]
  {
  }

  lemma HeadMoves<T>(done: seq<T>, ahead: seq<T>)
    requires ahead != []
    ensures done + ahead == (done + [ahead[0]]) + ahead[1..]
  {
  }

  /** Call `getopt` until it returns -1. */
  method ScanAll(argv: array<string>, optstring: string) returns (results: seq<Ret>, optind: nat)
    requires argv.Length > 0
    requires optstring != "" ==> optstring[0] != '-' && optstring[0] != '+'
    requires !MeetsW(optstring, argv[..], 1)
    modifies argv
    ensures var p := PlanFrom(optstring, old(argv[..]), 1);
      && results == p.results
      && argv[..] == [old(argv[0])] + p.opts + p.nonopts + p.tail
      && optind == 1 + |p.opts|
  {
    var scanner := new Scanner(argv, optstring);
    ghost var whole := scanner.Whole();
    assert whole == PlanFrom(optstring, argv[..], 1);
    EndlessExactly(optstring, argv[..], 1);
    hide PlanFrom, Cluster, MeetsW, Scanner.Whole, Scanner.Valid;
    results := [];
    while true
      invariant scanner.Valid() && scanner.argv == argv && !scanner.Whole().Endless()
      invariant fresh(scanner) && scanner.original == old(argv[..])
      invariant scanner.Whole() == whole.(results := scanner.Whole().results)
      invariant whole.results == results + scanner.Whole().results
      decreases |scanner.Whole().results|
    {
      ghost var before := scanner.Whole().results;
      var r := scanner.Next();
      if r == None {
        return results, scanner.optind;
      }
      HeadMoves(results, before);
      results := results + [r.value];
    }
  }

  /** Any number of calls of `getopt` in a scan that is endless: each of them returns an option, first those planned,
      then those of the element that the scan hangs on, again and again. */
  method KeepCalling(argv: array<string>, optstring: string, n: nat) returns (results: seq<Ret>)
    requires argv.Length > 0
    requires optstring != "" ==> optstring[0] != '-' && optstring[0] != '+'
    requires MeetsW(optstring, argv[..], 1)
    modifies argv
    ensures |results| == n
    ensures var p := PlanFrom(optstring, old(argv[..]), 1);
      p.Endless() && forall j | 0 <= j < n :: results[j] == Stream(p, j)
  {
    hide PlanFrom, Cluster, MeetsW, Scanner.Whole, Scanner.Valid, Scanner.Opts, Scanner.Nonopts, Stream, Aligned, Goes;
    var scanner := new Scanner(argv, optstring);
    ghost var p := scanner.Whole();
    EndlessExactly(optstring, argv[..], 1);
    EndlessGoesOn(optstring, argv[..], 1);
    results := [];
    PlanAligned(p);
    while |results| < n
      invariant scanner.Valid() && scanner.argv == argv && fresh(scanner)
      invariant |results| <= n && p.Endless() && scanner.Whole() == p.(results := scanner.Whole().results)
      invariant Aligned(p, |results|, scanner.Whole().results)
      invariant forall j | 0 <= j < |results| :: results[j] == Stream(p, j)
      decreases n - |results|
    {
      ghost var before := scanner.Whole();
      AlignedHead(p, |results|, before.results);
      var r := scanner.Next();
      StreamGoes(p, |results|, before, scanner.Whole());
      results := results + [r.value];
    }
  }

  lemma PlanAligned(p: Plan)
    requires p.Endless() && p.results != []
    ensures Aligned(p, 0, p.results)
  {
  }

  lemma StreamGoes(p: Plan, m: nat, before: Plan, after: Plan)
    requires before == p.(results := before.results) && Aligned(p, m, before.results) && Goes(before, after)
    ensures after == p.(results := after.results) && Aligned(p, m + 1, after.results)
  {
    hide Stream, RoundEnd;
    AlignedNext(p, m, before.results);
  }

  lemma AlignedHead(p: Plan, m: nat, ahead: seq<Ret>)
    requires Aligned(p, m, ahead)
    ensures ahead != [] && ahead[0] == Stream(p, m)
  {
    assert ahead[0] == Stream(p, m + 0);
  }
}
