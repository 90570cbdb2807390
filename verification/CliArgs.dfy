/** permuteArgs: flags moved ahead of positional arguments for a parser that stops at the first
    positional one. */
module CliArgs {
  import opened Wrappers
  import opened Text

  datatype FlagKind = Unknown | Boolean | Valued

  /** A flag set, as far as arguments are concerned: which flags there are and which take a value. */
  type FlagSet = string -> FlagKind

  function TrimDashes(s: string): string {
    if s != "" && s[0] == '-' then TrimDashes(s[1..]) else s
  }

  /** What permuteArgs takes for a flag. */
  predicate FlagLike(arg: string) {
    arg != "" && arg[0] == '-' && arg != "-"
  }

  /** What permuteArgs takes for a flag whose value is the next argument. */
  predicate TakesNext(arg: string, flags: FlagSet) {
    var name := TrimDashes(arg);
    Cut(name, '=').None? && flags(name) == Valued
  }

  /** The flags with their values, and the positional arguments, each in their order. */
  function Partition(args: seq<string>, flags: FlagSet): (seq<string>, seq<string>) {
    if args == [] then ([], [])
    else if !FlagLike(args[0]) then
      var (f, p) := Partition(args[1..], flags);
      (f, [args[0]] + p)
    else if TakesNext(args[0], flags) && |args| > 1 then
      var (f, p) := Partition(args[2..], flags);
      ([args[0], args[1]] + f, p)
    else
      var (f, p) := Partition(args[1..], flags);
      ([args[0]] + f, p)
  }

  function Permuted(args: seq<string>, flags: FlagSet): seq<string> {
    var (f, p) := Partition(args, flags);
    f + p
  }

  method PermuteArgs(args: seq<string>, flags: FlagSet) returns (out: seq<string>)
    ensures out == Permuted(args, flags)
  {
    var moved: seq<string> := [];
    var positional: seq<string> := [];
    var i := 0;
    while i < |args|
      invariant 0 <= i <= |args|
      invariant moved + Partition(args[i..], flags).0 == Partition(args, flags).0
      invariant positional + Partition(args[i..], flags).1 == Partition(args, flags).1
    {
      ghost var rest := args[i..];
      assert rest[1..] == args[i + 1..];
      if !FlagLike(args[i]) {
        positional := positional + [args[i]];
        i := i + 1;
      } else if TakesNext(args[i], flags) && i + 1 < |args| {
        assert rest[2..] == args[i + 2..];
        moved := moved + [args[i]] + [args[i + 1]];
        i := i + 2;
      } else {
        moved := moved + [args[i]];
        i := i + 1;
      }
    }
    out := moved + positional;
  }

  // ----- a permutation that keeps the order on both sides -----

  /** `args` is made of `a` and `b`, each in its own order. */
  predicate IsMerge(args: seq<string>, a: seq<string>, b: seq<string>) {
    if args == [] then a == [] && b == []
    else
      || (a != [] && a[0] == args[0] && IsMerge(args[1..], a[1..], b))
      || (b != [] && b[0] == args[0] && IsMerge(args[1..], a, b[1..]))
  }

  lemma {:induction false} PartitionMerges(args: seq<string>, flags: FlagSet)
    ensures IsMerge(args, Partition(args, flags).0, Partition(args, flags).1)
    ensures forall i :: 0 <= i < |Partition(args, flags).1| ==> !FlagLike(Partition(args, flags).1[i])
  {
    if args == [] {
    } else if !FlagLike(args[0]) {
      PartitionMerges(args[1..], flags);
    } else if TakesNext(args[0], flags) && |args| > 1 {
      PartitionMerges(args[2..], flags);
      var (f, p) := Partition(args[2..], flags);
      assert args[1..][1..] == args[2..] && ([args[1]] + f)[1..] == f;
      assert IsMerge(args[1..], [args[1]] + f, p);
      assert ([args[0], args[1]] + f)[1..] == [args[1]] + f;
    } else {
      PartitionMerges(args[1..], flags);
      var (f, p) := Partition(args[1..], flags);
      assert ([args[0]] + f)[1..] == f;
    }
  }

  lemma {:induction false} MergeIsPermutation(args: seq<string>, a: seq<string>, b: seq<string>)
    requires IsMerge(args, a, b)
    ensures multiset(args) == multiset(a + b)
  {
    if args != [] {
      assert args == [args[0]] + args[1..];
      if a != [] && a[0] == args[0] && IsMerge(args[1..], a[1..], b) {
        MergeIsPermutation(args[1..], a[1..], b);
        assert a + b == [a[0]] + (a[1..] + b);
      } else {
        MergeIsPermutation(args[1..], a, b[1..]);
        assert b == [b[0]] + b[1..];
        assert multiset(a + b) == multiset(a) + multiset([b[0]]) + multiset(b[1..]);
      }
    }
  }

  /** The output is the input rearranged; flags with their values keep their order, and so do the
      positional arguments. */
  lemma PermutedIsPermutation(args: seq<string>, flags: FlagSet)
    ensures
      var (f, p) := Partition(args, flags);
      Permuted(args, flags) == f + p && IsMerge(args, f, p) && multiset(Permuted(args, flags)) == multiset(args)
  {
    PartitionMerges(args, flags);
    MergeIsPermutation(args, Partition(args, flags).0, Partition(args, flags).1);
  }

  // ----- idempotence -----

  lemma {:induction false} PositionalStay(args: seq<string>, flags: FlagSet)
    requires forall i :: 0 <= i < |args| ==> !FlagLike(args[i])
    ensures Partition(args, flags) == ([], args)
  {
    if args != [] {
      PositionalStay(args[1..], flags);
      assert args == [args[0]] + args[1..];
    }
  }

  /** Permuting leaves `args` as it is. */
  predicate Settled(args: seq<string>, flags: FlagSet) {
    Permuted(args, flags) == args
  }

  lemma PositionalSettled(args: seq<string>, flags: FlagSet)
    requires forall i :: 0 <= i < |args| ==> !FlagLike(args[i])
    ensures Settled(args, flags)
  {
    PositionalStay(args, flags);
  }

  lemma PairSettled(arg: string, value: string, rest: seq<string>, flags: FlagSet)
    requires FlagLike(arg) && TakesNext(arg, flags) && Settled(rest, flags)
    ensures Settled([arg, value] + rest, flags)
  {
  }

  lemma FlagSettled(arg: string, rest: seq<string>, flags: FlagSet)
    requires FlagLike(arg) && !TakesNext(arg, flags) && Settled(rest, flags)
    ensures Settled([arg] + rest, flags)
  {
  }

  /** A last flag without its value takes the first positional argument for it, in the same place. */
  lemma UnfinishedSettled(arg: string, positional: seq<string>, flags: FlagSet)
    requires FlagLike(arg) && TakesNext(arg, flags)
    requires forall i :: 0 <= i < |positional| ==> !FlagLike(positional[i])
    ensures Settled([arg] + positional, flags)
  {
    if positional == [] {
      assert [arg] + positional == [arg] && [arg][1..] == [];
      assert Partition([arg][1..], flags) == ([], []);
      assert Partition([arg], flags) == ([arg], []);
    } else {
      PositionalSettled(positional[1..], flags);
      PairSettled(arg, positional[0], positional[1..], flags);
      assert [arg, positional[0]] + positional[1..] == [arg] + positional;
    }
  }

  /** Flags followed by positional arguments are left as they are. */
  lemma {:induction false} FlagsFirstStay(args: seq<string>, flags: FlagSet, positional: seq<string>)
    requires forall i :: 0 <= i < |positional| ==> !FlagLike(positional[i])
    ensures Settled(Partition(args, flags).0 + positional, flags)
  {
    if args == [] {
      PositionalSettled(positional, flags);
      assert [] + positional == positional;
    } else if !FlagLike(args[0]) {
      FlagsFirstStay(args[1..], flags, positional);
    } else if TakesNext(args[0], flags) && |args| > 1 {
      var g := Partition(args[2..], flags).0;
      FlagsFirstStay(args[2..], flags, positional);
      PairSettled(args[0], args[1], g + positional, flags);
      Regroup([args[0], args[1]], g, positional);
    } else if TakesNext(args[0], flags) {
      UnfinishedSettled(args[0], positional, flags);
      assert args[1..] == [] && Partition(args, flags).0 == [args[0]];
    } else {
      var g := Partition(args[1..], flags).0;
      FlagsFirstStay(args[1..], flags, positional);
      FlagSettled(args[0], g + positional, flags);
      Regroup([args[0]], g, positional);
    }
  }

  lemma Regroup(a: seq<string>, b: seq<string>, c: seq<string>)
    ensures a + b + c == a + (b + c)
  {
  }

  /** Permuting twice is permuting once, a missing value included. */
  lemma PermutedTwice(args: seq<string>, flags: FlagSet)
    ensures Permuted(Permuted(args, flags), flags) == Permuted(args, flags)
  {
    PartitionMerges(args, flags);
    FlagsFirstStay(args, flags, Partition(args, flags).1);
  }

  // ----- the parser -----

  datatype Setting = Setting(name: string, value: string)

  /** How one argument reads: an error, a complete setting, or a name whose value comes next. */
  datatype Reading = Bad | Complete(setting: Setting) | Needs(name: string)

  /** One flag argument, in the syntax of Go's flag package: one or two dashes, then a known name. */
  function Read(arg: string, flags: FlagSet): Reading
    requires FlagLike(arg)
  {
    var body := if arg[1] == '-' then arg[2..] else arg[1..];
    if body == "" || body[0] == '-' || body[0] == '=' then Bad
    else
      match Cut(body, '=')
      case Some((name, value)) => if flags(name) == Unknown then Bad else Complete(Setting(name, value))
      case None =>
        match flags(body)
        case Unknown => Bad
        case Boolean => Complete(Setting(body, "true"))
        case Valued => Needs(body)
  }

  /** One dash or two, a name, and a value behind an equals sign; without one the name is a boolean
      flag set to true or needs the next argument; any other form and any unknown name is an error. */
  lemma ReadForms(dashes: string, name: string, value: string, flags: FlagSet)
    requires dashes in {"-", "--"} && name != "" && name[0] != '-' && '=' !in name
    ensures FlagLike(dashes + name) && FlagLike(dashes + name + "=" + value)
    ensures Read(dashes + name, flags) ==
            match flags(name)
            case Unknown => Bad
            case Boolean => Complete(Setting(name, "true"))
            case Valued => Needs(name)
    ensures Read(dashes + name + "=" + value, flags) ==
            if flags(name) == Unknown then Bad else Complete(Setting(name, value))
  {
    var plain, given := dashes + name, dashes + name + "=" + value;
    assert plain[|dashes|..] == name && given[|dashes|..] == name + "=" + value;
    assert plain[1] == (if dashes == "-" then name[0] else '-') && given[1] == plain[1];
    CutOf(name, '=', value);
    assert name + ['='] + value == name + "=" + value;
    NoCut(name, '=');
  }

  lemma {:induction false} NoCut(s: string, sep: char)
    requires sep !in s
    ensures Cut(s, sep) == None
  {
    if s != "" { NoCut(s[1..], sep); }
  }

  /** An argument that reads as anything has one of these forms. */
  lemma ReadHasForm(arg: string, flags: FlagSet) returns (dashes: string, name: string, tail: string)
    requires FlagLike(arg) && Read(arg, flags) != Bad
    ensures dashes in {"-", "--"} && name != "" && name[0] != '-' && '=' !in name
    ensures arg == dashes + name + tail && (tail == "" || tail[0] == '=')
  {
    dashes := if arg[1] == '-' then "--" else "-";
    var body := arg[|dashes|..];
    assert arg == dashes + body;
    match Cut(body, '=')
    case None =>
      name, tail := body, "";
      UncutHasNone(body, '=');
    case Some((before, after)) =>
      CutJoins(body, '=');
      name, tail := before, ['='] + after;
  }

  datatype Outcome =
    | Parsed(settings: seq<Setting>, positional: seq<string>)
    | BadFlag(settings: seq<Setting>, arg: string)
    | MissingValue(settings: seq<Setting>, arg: string)

  function WithSetting(setting: Setting, rest: Outcome): Outcome {
    match rest
    case Parsed(settings, positional) => Parsed([setting] + settings, positional)
    case BadFlag(settings, arg) => BadFlag([setting] + settings, arg)
    case MissingValue(settings, arg) => MissingValue([setting] + settings, arg)
  }

  function WithPositional(arg: string, rest: Outcome): Outcome {
    match rest
    case Parsed(settings, positional) => Parsed(settings, [arg] + positional)
    case _ => rest
  }

  /** The flag package: it stops at the first positional argument or at "--". */
  function ParseStopping(args: seq<string>, flags: FlagSet): Outcome {
    if args == [] || !FlagLike(args[0]) then Parsed([], args)
    else if args[0] == "--" then Parsed([], args[1..])
    else
      match Read(args[0], flags)
      case Bad => BadFlag([], args[0])
      case Complete(setting) => WithSetting(setting, ParseStopping(args[1..], flags))
      case Needs(name) =>
        if |args| == 1 then MissingValue([], args[0])
        else WithSetting(Setting(name, args[1]), ParseStopping(args[2..], flags))
  }

  /** The same parser, except that it reads on past positional arguments. */
  function ParseMixed(args: seq<string>, flags: FlagSet): Outcome {
    if args == [] then Parsed([], [])
    else if !FlagLike(args[0]) then WithPositional(args[0], ParseMixed(args[1..], flags))
    else if args[0] == "--" then Parsed([], args[1..])
    else
      match Read(args[0], flags)
      case Bad => BadFlag([], args[0])
      case Complete(setting) => WithSetting(setting, ParseMixed(args[1..], flags))
      case Needs(name) =>
        if |args| == 1 then MissingValue([], args[0])
        else WithSetting(Setting(name, args[1]), ParseMixed(args[2..], flags))
  }

  lemma ReadAgrees(arg: string, flags: FlagSet)
    requires FlagLike(arg)
    ensures Read(arg, flags).Needs? ==> TakesNext(arg, flags)
    ensures Read(arg, flags).Complete? ==> !TakesNext(arg, flags)
  {
    var body := if arg[1] == '-' then arg[2..] else arg[1..];
    if body != "" && body[0] != '-' {
      assert TrimDashes(body) == body;
      assert TrimDashes(arg) == body by {
        assert TrimDashes(arg) == TrimDashes(arg[1..]);
        if arg[1] == '-' {
          assert arg[1..][1..] == arg[2..];
        }
      }
    }
  }

  /** The arguments before and after the "--" that ends the flags, if reading on gets that far. */
  function Terminator(args: seq<string>, flags: FlagSet): Option<(seq<string>, seq<string>)> {
    if args == [] then None
    else if args[0] == "--" then Some(([], args[1..]))
    else if !FlagLike(args[0]) || Read(args[0], flags).Complete? then Behind(args[..1], Terminator(args[1..], flags))
    else if Read(args[0], flags).Bad? || |args| == 1 then None
    else Behind(args[..2], Terminator(args[2..], flags))
  }

  function Behind(head: seq<string>, t: Option<(seq<string>, seq<string>)>): Option<(seq<string>, seq<string>)> {
    match t
    case None => None
    case Some((before, after)) => Some((head + before, after))
  }

  /** What the stopping parser makes of the moved flags with the arguments `tail` behind them. */
  ghost predicate Agrees(mixed: Outcome, stopping: Outcome, positional: seq<string>, tail: seq<string>) {
    match mixed
    case Parsed(settings, rest) => rest == positional && stopping == Parsed(settings, tail)
    case BadFlag(_, _) => stopping == mixed
    case MissingValue(_, _) => if tail == [] then stopping == mixed else stopping.Parsed?
  }

  /** The same, past a "--": both keep the settings made before it. */
  ghost predicate AgreesPast(mixed: Outcome, stopping: Outcome, before: seq<string>, after: seq<string>,
                             flags: FlagSet, tail: seq<string>) {
    && mixed.Parsed?
    && mixed.positional == Partition(before, flags).1 + after
    && stopping == Parsed(mixed.settings, Partition(after, flags).0 + tail)
  }

  ghost predicate ReadTheSame(args: seq<string>, flags: FlagSet, tail: seq<string>) {
    var (f, p) := Partition(args, flags);
    var mixed, stopping := ParseMixed(args, flags), ParseStopping(f + tail, flags);
    match Terminator(args, flags)
    case None => Agrees(mixed, stopping, p, tail)
    case Some((before, after)) =>
      AgreesPast(mixed, stopping, before, after, flags, tail) && p == Partition(before, flags).1 + Partition(after, flags).1
  }

  lemma TerminatorReads(args: seq<string>, flags: FlagSet, tail: seq<string>)
    requires args != [] && args[0] == "--" && flags("") != Valued
    ensures ReadTheSame(args, flags, tail)
  {
    assert "--"[1..] == "-" && "-"[1..] == "" && TrimDashes("-") == "" && TrimDashes("--") == "";
    var g := Partition(args[1..], flags).0;
    Regroup(["--"], g, tail);
    assert (["--"] + (g + tail))[1..] == g + tail;
  }

  lemma PartitionPositional(arg: string, rest: seq<string>, flags: FlagSet)
    requires !FlagLike(arg)
    ensures Partition([arg] + rest, flags) == (Partition(rest, flags).0, [arg] + Partition(rest, flags).1)
  {
    assert ([arg] + rest)[1..] == rest;
  }

  lemma PositionalReads(args: seq<string>, flags: FlagSet, tail: seq<string>)
    requires args != [] && !FlagLike(args[0]) && ReadTheSame(args[1..], flags, tail)
    ensures ReadTheSame(args, flags, tail)
  {
    var rest := Terminator(args[1..], flags);
    if rest.Some? {
      var before, after := rest.value.0, rest.value.1;
      assert args[..1] == [args[0]];
      PartitionPositional(args[0], before, flags);
      Regroup([args[0]], Partition(before, flags).1, after);
      Regroup([args[0]], Partition(before, flags).1, Partition(after, flags).1);
    }
  }

  lemma FlagReads(args: seq<string>, flags: FlagSet, tail: seq<string>)
    requires args != [] && FlagLike(args[0]) && args[0] != "--" && Read(args[0], flags).Complete?
    requires ReadTheSame(args[1..], flags, tail)
    ensures ReadTheSame(args, flags, tail)
  {
    ReadAgrees(args[0], flags);
    var g, rest := Partition(args[1..], flags).0, Terminator(args[1..], flags);
    Regroup([args[0]], g, tail);
    assert ([args[0]] + (g + tail))[1..] == g + tail;
    if rest.Some? {
      assert (args[..1] + rest.value.0)[1..] == rest.value.0;
    }
  }

  lemma PairReads(args: seq<string>, flags: FlagSet, tail: seq<string>)
    requires |args| > 1 && FlagLike(args[0]) && args[0] != "--" && Read(args[0], flags).Needs?
    requires ReadTheSame(args[2..], flags, tail)
    ensures ReadTheSame(args, flags, tail)
  {
    ReadAgrees(args[0], flags);
    var g, rest := Partition(args[2..], flags).0, Terminator(args[2..], flags);
    Regroup([args[0], args[1]], g, tail);
    assert ([args[0], args[1]] + (g + tail))[2..] == g + tail;
    if rest.Some? {
      assert (args[..2] + rest.value.0)[2..] == rest.value.0;
    }
  }

  lemma {:induction false} FlagsReadTheSame(args: seq<string>, flags: FlagSet, tail: seq<string>)
    requires flags("") != Valued && forall i :: 0 <= i < |tail| ==> !FlagLike(tail[i])
    ensures ReadTheSame(args, flags, tail)
  {
    if args == [] {
      assert [] + tail == tail;
    } else if args[0] == "--" {
      TerminatorReads(args, flags, tail);
    } else if !FlagLike(args[0]) {
      FlagsReadTheSame(args[1..], flags, tail);
      PositionalReads(args, flags, tail);
    } else {
      match Read(args[0], flags)
      case Bad => BadReadsTheSame(args, flags, tail);
      case Complete(setting) =>
        FlagsReadTheSame(args[1..], flags, tail);
        FlagReads(args, flags, tail);
      case Needs(name) =>
        if |args| == 1 {
          UnfinishedReads(args[0], flags, tail);
          assert args == [args[0]];
        } else {
          FlagsReadTheSame(args[2..], flags, tail);
          PairReads(args, flags, tail);
        }
    }
  }

  lemma BadReadsTheSame(args: seq<string>, flags: FlagSet, tail: seq<string>)
    requires args != [] && FlagLike(args[0]) && args[0] != "--" && Read(args[0], flags).Bad?
    ensures ParseStopping(Partition(args, flags).0 + tail, flags) == BadFlag([], args[0])
  {
  }

  lemma PartitionLast(arg: string, flags: FlagSet)
    requires FlagLike(arg)
    ensures Partition([arg], flags) == ([arg], [])
  {
    assert [arg][1..] == [] && Partition([], flags) == ([], []);
    assert [arg] + [] == [arg];
  }

  /** A flag without its value takes the first argument of `tail`, or misses one. */
  lemma StoppingTakes(arg: string, flags: FlagSet, tail: seq<string>, name: string)
    requires FlagLike(arg) && arg != "--" && Read(arg, flags) == Needs(name)
    requires tail == [] || !FlagLike(tail[0])
    ensures ParseStopping([arg] + tail, flags) ==
            if tail == [] then MissingValue([], arg)
            else WithSetting(Setting(name, tail[0]), ParseStopping(tail[1..], flags))
  {
    if tail != [] {
      var all := [arg] + tail;
      assert |all| > 1 && all[0] == arg && all[1] == tail[0] && all[2..] == tail[1..];
    }
  }

  lemma UnfinishedReads(arg: string, flags: FlagSet, tail: seq<string>)
    requires FlagLike(arg) && arg != "--" && Read(arg, flags).Needs?
    requires forall i :: 0 <= i < |tail| ==> !FlagLike(tail[i])
    ensures
      var f := Partition([arg], flags).0;
      if tail == [] then ParseStopping(f + tail, flags) == MissingValue([], arg)
      else ParseStopping(f + tail, flags).Parsed?
  {
    PartitionLast(arg, flags);
    StoppingTakes(arg, flags, tail, Read(arg, flags).name);
  }

  lemma {:induction false} FirstMovedIsFlagLike(args: seq<string>, flags: FlagSet)
    ensures Partition(args, flags).0 != [] ==> FlagLike(Partition(args, flags).0[0])
    ensures Partition(args, flags).0 == [] ==> Partition(args, flags).1 == args
  {
    if args != [] && !FlagLike(args[0]) {
      FirstMovedIsFlagLike(args[1..], flags);
      assert args == [args[0]] + args[1..];
    }
  }

  /** Moving the "--" to the front keeps the positional arguments in order exactly when nothing
      behind it looks like a flag, or nothing positional stands before it and permuting would
      leave the rest alone. */
  lemma TerminatorHarmlessIff(before: seq<string>, after: seq<string>, flags: FlagSet)
    ensures
      var p := Partition(before, flags).1;
      var (f, q) := Partition(after, flags);
      f + (p + q) == p + after <==> f == [] || (p == [] && Settled(after, flags))
  {
    var p := Partition(before, flags).1;
    var (f, q) := Partition(after, flags);
    FirstMovedIsFlagLike(after, flags);
    PartitionMerges(before, flags);
    if f == [] {
      assert [] + (p + q) == p + q;
    } else if p == [] {
      assert p + q == q && p + after == after;
    } else {
      assert (f + (p + q))[0] == f[0] && (p + after)[0] == p[0];
    }
  }

  /** When the stopping parser reads the permuted arguments as they were meant: unless a last flag
      without its value finds a positional argument to take, or a "--" lets arguments behind it
      overtake. */
  ghost predicate SafelyPermuted(args: seq<string>, flags: FlagSet) {
    match Terminator(args, flags)
    case None => !(ParseMixed(args, flags).MissingValue? && Partition(args, flags).1 != [])
    case Some((before, after)) =>
      || Partition(after, flags).0 == []
      || (Partition(before, flags).1 == [] && Settled(after, flags))
  }

  /** For all argument lists: the same settings, the same positional arguments, the same error,
      exactly under that condition. No flag has the empty name. */
  lemma PermutedParsesTheSameIff(args: seq<string>, flags: FlagSet)
    requires flags("") != Valued
    ensures ParseStopping(Permuted(args, flags), flags) == ParseMixed(args, flags) <==> SafelyPermuted(args, flags)
  {
    var (f, p) := Partition(args, flags);
    PartitionMerges(args, flags);
    FlagsReadTheSame(args, flags, p);
    match Terminator(args, flags)
    case None =>
    case Some((before, after)) => TerminatorHarmlessIff(before, after, flags);
  }

  function OnlyT(name: string): FlagKind {
    if name == "t" then Valued else Unknown
  }

  /** With its value missing, "--t" takes the positional "5" for it. */
  lemma MissingValueTakesAPositional()
    ensures ParseMixed(["5", "--t"], OnlyT) == MissingValue([], "--t")
    ensures ParseStopping(Permuted(["5", "--t"], OnlyT), OnlyT) == Parsed([Setting("t", "5")], [])
  {
  }

  /** A "--" is moved along with the flags, and what it protected goes ahead of what stood before it. */
  lemma TerminatorIsMoved()
    ensures ParseMixed(["a", "--", "-v"], OnlyT) == Parsed([], ["a", "-v"])
    ensures ParseStopping(Permuted(["a", "--", "-v"], OnlyT), OnlyT) == Parsed([], ["-v", "a"])
  {
  }
}
