/**
 pflag's command-line parser: parsing as a function of the argument list, its GNU normal form, and
 the meaning of shorthand clusters. `FlagSet` at the end has the loops of flag.go.
 */
module Flags {
  import opened Seqs

  datatype Flag = Flag(name: string, isBool: bool)

  /** The flags defined, by name and by shorthand. `accepts` stands for the flags' Value.Set, which
      succeeds or fails on a text. */
  datatype Config = Config(formal: map<string, Flag>, shorthands: map<char, Flag>, interspersed: bool,
                           accepts: (string, string) -> bool)

  /** One call of a flag's Value.Set. */
  datatype Setting = Setting(flag: string, value: string)

  datatype Failure = BadSyntax | Unknown | UnknownShorthand(c: char) | NeedsArgument | Invalid | Help

  datatype Result = Success | Failed(why: Failure)

  /** The calls of Value.Set in order, and the positional arguments, when parsing ends. */
  datatype Outcome = Outcome(result: Result, sets: seq<Setting>, args: seq<string>)

  function AddSet(flag: Flag, value: string, o: Outcome): Outcome {
    o.(sets := [Setting(flag.name, value)] + o.sets)
  }

  function AddArg(arg: string, o: Outcome): Outcome { o.(args := [arg] + o.args) }

  function Fail(why: Failure): Outcome { Outcome(Failed(why), [], []) }

  predicate Accepts(cfg: Config, flag: Flag, value: string) { cfg.accepts(flag.name, value) }

  predicate IsPositional(s: string) { |s| <= 1 || s[0] != '-' }

  predicate IsLong(s: string) { |s| >= 2 && s[0] == '-' && s[1] == '-' }

  predicate IsCluster(s: string) { !IsPositional(s) && !IsLong(s) }

  /** What one `--name` or `--name=value` token does on its own. */
  datatype Long = Sets(flag: Flag, value: string) | Stops(why: Failure) | Rejects(flag: Flag, value: string)

  function LongToken(cfg: Config, s: string): Long
    requires IsLong(s) && |s| > 2
  {
    var body := s[2..];
    if body[0] == '-' || body[0] == '=' then Stops(BadSyntax)
    else
      var i := IndexOf(body, '=');
      var name := body[..i];
      if name !in cfg.formal then Stops(if name == "help" then Help else Unknown)
      else
        var flag := cfg.formal[name];
        if i == |body| then (if flag.isBool then Sets(flag, "true") else Stops(NeedsArgument))
        else if Accepts(cfg, flag, body[i + 1..]) then Sets(flag, body[i + 1..])
        else Rejects(flag, body[i + 1..])
  }

  function Parse(cfg: Config, args: seq<string>): Outcome
    decreases |args|, 0, 0
  {
    if args == [] then Outcome(Success, [], [])
    else
      var s, rest := args[0], args[1..];
      if IsPositional(s) then
        if cfg.interspersed then AddArg(s, Parse(cfg, rest)) else Outcome(Success, [], args)
      else if IsLong(s) then
        if |s| == 2 then Outcome(Success, [], rest)
        else
          match LongToken(cfg, s)
          case Stops(why) => Fail(why)
          case Rejects(flag, value) => AddSet(flag, value, Fail(Invalid))
          case Sets(flag, value) => AddSet(flag, value, Parse(cfg, rest))
      else ParseCluster(cfg, s[1..], rest)
  }

  /** The letters after a single dash, and the arguments that follow the token. A boolean flag's
      Set may fail unnoticed; any other flag takes the rest of the letters, or the next argument. */
  function ParseCluster(cfg: Config, letters: string, rest: seq<string>): Outcome
    decreases |rest|, 1, |letters|
  {
    if letters == [] then Parse(cfg, rest)
    else
      var c := letters[0];
      if c !in cfg.shorthands then Fail(if c == 'h' then Help else UnknownShorthand(c))
      else
        var flag := cfg.shorthands[c];
        if flag.isBool then AddSet(flag, "true", ParseCluster(cfg, letters[1..], rest))
        else if |letters| > 1 then
          AddSet(flag, letters[1..], if Accepts(cfg, flag, letters[1..]) then Parse(cfg, rest) else Fail(Invalid))
        else if rest == [] then Fail(NeedsArgument)
        else
          AddSet(flag, rest[0], if Accepts(cfg, flag, rest[0]) then Parse(cfg, rest[1..]) else Fail(Invalid))
  }

  // ---------------------------------------------------------------- GNU normal form

  /** Whether a cluster takes the argument after it as a value. */
  predicate TakesNext(cfg: Config, letters: string) {
    letters != [] && letters[0] in cfg.shorthands
    && if cfg.shorthands[letters[0]].isBool then TakesNext(cfg, letters[1..]) else |letters| == 1
  }

  /** The flag tokens with their separate values, in order; the positional arguments; and the
      terminator, if one was reached. */
  function FlagTokens(cfg: Config, args: seq<string>): seq<string>
    decreases |args|
  {
    if args == [] then []
    else
      var s, rest := args[0], args[1..];
      if IsPositional(s) then (if cfg.interspersed then FlagTokens(cfg, rest) else [])
      else if IsLong(s) then (if |s| == 2 then [] else [s] + FlagTokens(cfg, rest))
      else if TakesNext(cfg, s[1..]) && rest != [] then [s, rest[0]] + FlagTokens(cfg, rest[1..])
      else [s] + FlagTokens(cfg, rest)
  }

  function Terminator(cfg: Config, args: seq<string>): seq<string>
    decreases |args|
  {
    if args == [] then []
    else
      var s, rest := args[0], args[1..];
      if IsPositional(s) then (if cfg.interspersed then Terminator(cfg, rest) else [])
      else if IsLong(s) then (if |s| == 2 then [s] else Terminator(cfg, rest))
      else if TakesNext(cfg, s[1..]) && rest != [] then Terminator(cfg, rest[1..])
      else Terminator(cfg, rest)
  }

  /** A cluster's own effect does not depend on what follows the argument it takes. */
  lemma {:induction false} ClusterFrame(cfg: Config, letters: string, rest: seq<string>, rest': seq<string>)
    requires TakesNext(cfg, letters) ==> rest != [] && rest' != [] && rest[0] == rest'[0]
    requires ParseCluster(cfg, letters, rest).result.Success?
    ensures var k := if TakesNext(cfg, letters) then 1 else 0;
      && var tail, tail' := Parse(cfg, rest[k..]), Parse(cfg, rest'[k..]);
      && var o, o' := ParseCluster(cfg, letters, rest), ParseCluster(cfg, letters, rest');
      && tail.result.Success? && o.args == tail.args
      && (tail'.result.Success? && tail'.sets == tail.sets ==> o' == Outcome(Success, o.sets, tail'.args))
    decreases |letters|
  {
    assert rest[0..] == rest && rest'[0..] == rest';
    if letters != [] && cfg.shorthands[letters[0]].isBool {
      ClusterFrame(cfg, letters[1..], rest, rest');
    }
  }

  /** Flag tokens and their separate values, then `--`, then anything: the same settings, and
      everything behind the `--` positional. */
  lemma {:induction false} FlagTokensParse(cfg: Config, args: seq<string>, extra: seq<string>)
    requires Parse(cfg, args).result.Success?
    ensures Parse(cfg, FlagTokens(cfg, args) + ["--"] + extra) == Outcome(Success, Parse(cfg, args).sets, extra)
    decreases |args|, 1
  {
    if args == [] || (IsPositional(args[0]) && !cfg.interspersed) || (IsLong(args[0]) && |args[0]| == 2) {
      assert FlagTokens(cfg, args) + ["--"] + extra == ["--"] + extra;
      assert (["--"] + extra)[1..] == extra;
    } else if IsPositional(args[0]) {
      FlagTokensParse(cfg, args[1..], extra);
    } else if IsLong(args[0]) {
      FlagTokensParse(cfg, args[1..], extra);
      var form := FlagTokens(cfg, args[1..]) + ["--"] + extra;
      RegroupRight([args[0]], FlagTokens(cfg, args[1..]), ["--"], extra);
      Associate(FlagTokens(cfg, args[1..]), ["--"], extra);
      assert ([args[0]] + form)[1..] == form;
    } else {
      ClusterTokensParse(cfg, args, extra);
    }
  }

  /** A cluster's tokens, and those after them. */
  lemma ClusterTokens(cfg: Config, args: seq<string>, k: nat)
    requires args != [] && IsCluster(args[0]) && k == if TakesNext(cfg, args[0][1..]) then 1 else 0
    requires k == 1 ==> |args| > 1
    ensures FlagTokens(cfg, args) == [args[0]] + args[1..][..k] + FlagTokens(cfg, args[1..][k..])
    ensures Terminator(cfg, args) == Terminator(cfg, args[1..][k..])
  {
    assert args[1..][0..] == args[1..];
    if k == 1 { assert [args[0]] + args[1..][..1] == [args[0], args[1]]; }
  }

  lemma ClusterForm(cfg: Config, args: seq<string>, k: nat, extra: seq<string>)
    requires args != [] && IsCluster(args[0]) && k == if TakesNext(cfg, args[0][1..]) then 1 else 0
    requires k == 1 ==> |args| > 1
    ensures FlagTokens(cfg, args) + ["--"] + extra
            == [args[0]] + (args[1..][..k] + (FlagTokens(cfg, args[1..][k..]) + ["--"] + extra))
  {
    ClusterTokens(cfg, args, k);
    RegroupRight([args[0]], args[1..][..k], FlagTokens(cfg, args[1..][k..]), ["--"] + extra);
    Associate(FlagTokens(cfg, args), ["--"], extra);
    Associate(FlagTokens(cfg, args[1..][k..]), ["--"], extra);
  }

  lemma {:induction false} ClusterTokensParse(cfg: Config, args: seq<string>, extra: seq<string>)
    requires args != [] && IsCluster(args[0]) && Parse(cfg, args).result.Success?
    ensures Parse(cfg, FlagTokens(cfg, args) + ["--"] + extra) == Outcome(Success, Parse(cfg, args).sets, extra)
    decreases |args|, 0
  {
    var s, rest := args[0], args[1..];
    if TakesNext(cfg, s[1..]) { TakesNextHasNext(cfg, s[1..], rest); }
    var k := if TakesNext(cfg, s[1..]) then 1 else 0;
    var form := FlagTokens(cfg, rest[k..]) + ["--"] + extra;
    var rest' := rest[..k] + form;
    assert rest'[k..] == form && (k == 1 ==> rest'[0] == rest[0]);
    ClusterFrame(cfg, s[1..], rest, rest');
    FlagTokensParse(cfg, rest[k..], extra);
    ClusterForm(cfg, args, k, extra);
    assert ([s] + rest')[1..] == rest';
  }

  lemma {:induction false} TakesNextHasNext(cfg: Config, letters: string, rest: seq<string>)
    requires ParseCluster(cfg, letters, rest).result.Success? && TakesNext(cfg, letters)
    ensures rest != []
    decreases |letters|
  {
    if cfg.shorthands[letters[0]].isBool { TakesNextHasNext(cfg, letters[1..], rest); }
  }

  /** The GNU normal form: for every successful parse, moving all positional arguments behind one
      `--`, flag tokens and their separate values kept in order, gives the same settings in the
      same order and the same positional arguments. */
  lemma NormalForm(cfg: Config, args: seq<string>)
    requires Parse(cfg, args).result.Success?
    ensures Parse(cfg, FlagTokens(cfg, args) + ["--"] + Parse(cfg, args).args) == Parse(cfg, args)
  {
    FlagTokensParse(cfg, args, Parse(cfg, args).args);
  }

  lemma {:induction false} ClusterArgs(cfg: Config, letters: string, rest: seq<string>)
    requires ParseCluster(cfg, letters, rest).result.Success?
    requires TakesNext(cfg, letters) ==> rest != []
    ensures var k := if TakesNext(cfg, letters) then 1 else 0;
            Parse(cfg, rest[k..]).result.Success? && ParseCluster(cfg, letters, rest).args == Parse(cfg, rest[k..]).args
    decreases |letters|
  {
    ClusterFrame(cfg, letters, rest, rest);
  }

  /** The three parts the arguments fall into. */
  function Parts(cfg: Config, args: seq<string>): multiset<string> {
    multiset(FlagTokens(cfg, args)) + multiset(Parse(cfg, args).args) + multiset(Terminator(cfg, args))
  }

  lemma ClusterParts(cfg: Config, args: seq<string>)
    requires args != [] && IsCluster(args[0]) && Parse(cfg, args).result.Success?
    ensures var k := if TakesNext(cfg, args[0][1..]) then 2 else 1;
      k <= |args| && Parse(cfg, args[k..]).result.Success?
        && Parts(cfg, args) == multiset(args[..k]) + Parts(cfg, args[k..])
  {
    var s, rest := args[0], args[1..];
    if TakesNext(cfg, s[1..]) { TakesNextHasNext(cfg, s[1..], rest); }
    ClusterArgs(cfg, s[1..], rest);
    var k := if TakesNext(cfg, s[1..]) then 2 else 1;
    ClusterTokens(cfg, args, k - 1);
    assert rest[k - 1..] == args[k..] && args[..k] == [s] + rest[..k - 1];
    PartsJoin(cfg, args, k);
  }

  lemma PartsJoin(cfg: Config, args: seq<string>, k: nat)
    requires k <= |args| && FlagTokens(cfg, args) == args[..k] + FlagTokens(cfg, args[k..])
    requires Terminator(cfg, args) == Terminator(cfg, args[k..]) && Parse(cfg, args).args == Parse(cfg, args[k..]).args
    ensures Parts(cfg, args) == multiset(args[..k]) + Parts(cfg, args[k..])
  {
  }

  lemma SingleParts(cfg: Config, args: seq<string>)
    requires args != [] && Parse(cfg, args).result.Success?
    requires (IsPositional(args[0]) && cfg.interspersed) || (IsLong(args[0]) && |args[0]| > 2)
    ensures Parse(cfg, args[1..]).result.Success? && Parts(cfg, args) == multiset{args[0]} + Parts(cfg, args[1..])
  {
    if IsPositional(args[0]) { WordPart(cfg, args); } else { LongPart(cfg, args); }
  }

  lemma WordPart(cfg: Config, args: seq<string>)
    requires args != [] && IsPositional(args[0]) && cfg.interspersed
    ensures Parse(cfg, args).result == Parse(cfg, args[1..]).result
    ensures Parse(cfg, args).args == [args[0]] + Parse(cfg, args[1..]).args
    ensures FlagTokens(cfg, args) == FlagTokens(cfg, args[1..]) && Terminator(cfg, args) == Terminator(cfg, args[1..])
    ensures Parts(cfg, args) == multiset{args[0]} + Parts(cfg, args[1..])
  {
  }

  lemma LongPart(cfg: Config, args: seq<string>)
    requires args != [] && IsLong(args[0]) && |args[0]| > 2 && Parse(cfg, args).result.Success?
    ensures Parse(cfg, args[1..]).result.Success? && Parse(cfg, args).args == Parse(cfg, args[1..]).args
    ensures FlagTokens(cfg, args) == [args[0]] + FlagTokens(cfg, args[1..])
    ensures Terminator(cfg, args) == Terminator(cfg, args[1..])
    ensures Parts(cfg, args) == multiset{args[0]} + Parts(cfg, args[1..])
  {
  }

  lemma HeadPart(args: seq<string>)
    requires args != []
    ensures multiset(args) == multiset{args[0]} + multiset(args[1..])
  {
    assert args == [args[0]] + args[1..];
  }

  /** Where parsing stops, everything left is positional or the terminator. */
  lemma StopParts(cfg: Config, args: seq<string>)
    requires args == [] || (IsPositional(args[0]) && !cfg.interspersed) || (IsLong(args[0]) && |args[0]| == 2)
    ensures Parts(cfg, args) == multiset(args)
  {
    if args != [] { HeadPart(args); }
  }

  lemma SplitParts(args: seq<string>, k: nat)
    requires k <= |args|
    ensures multiset(args) == multiset(args[..k]) + multiset(args[k..])
  {
    assert args == args[..k] + args[k..];
  }

  /** Nothing is lost or made up: the flag tokens with their values, the positional arguments and
      the terminator are the argument list, rearranged. */
  lemma {:induction false} NothingLost(cfg: Config, args: seq<string>)
    requires Parse(cfg, args).result.Success?
    ensures Parts(cfg, args) == multiset(args)
    decreases |args|
  {
    if args == [] {
      StopParts(cfg, args);
    } else {
      if (IsPositional(args[0]) && cfg.interspersed) || (IsLong(args[0]) && |args[0]| > 2) {
        SingleParts(cfg, args);
        NothingLost(cfg, args[1..]);
        HeadPart(args);
      } else if IsCluster(args[0]) {
        ClusterParts(cfg, args);
        var k := if TakesNext(cfg, args[0][1..]) then 2 else 1;
        NothingLost(cfg, args[k..]);
        SplitParts(args, k);
      } else {
        StopParts(cfg, args);
      }
    }
  }

  // ---------------------------------------------------------------- Clusters

  /** A cluster written out: one token for each boolean letter, and for the last flag its value as
      a token of its own. */
  function Expand(cfg: Config, letters: string): seq<string> {
    if letters == [] then []
    else
      var c := letters[0];
      if c in cfg.shorthands && cfg.shorthands[c].isBool then [['-', c]] + Expand(cfg, letters[1..])
      else if c in cfg.shorthands && |letters| > 1 then [['-', c], letters[1..]]
      else [['-', c]]
  }

  /** No letter that is looked up is a dash. */
  predicate NoDash(cfg: Config, letters: string) {
    letters == [] || (letters[0] != '-'
                      && (letters[0] in cfg.shorthands && cfg.shorthands[letters[0]].isBool ==>
                        NoDash(cfg, letters[1..])))
  }

  lemma SingleLetter(cfg: Config, c: char, rest: seq<string>)
    requires c != '-'
    ensures Parse(cfg, [['-', c]] + rest) == ParseCluster(cfg, [c], rest)
  {
    var s := ['-', c];
    assert s[1..] == [c] && ([s] + rest)[1..] == rest;
  }

  lemma {:induction false} ExpandParses(cfg: Config, letters: string, rest: seq<string>)
    requires NoDash(cfg, letters)
    ensures Parse(cfg, Expand(cfg, letters) + rest) == ParseCluster(cfg, letters, rest)
    decreases |letters|
  {
    if letters == [] {
      assert Expand(cfg, letters) + rest == rest;
    } else {
      var c := letters[0];
      if c in cfg.shorthands && cfg.shorthands[c].isBool {
        var tail := Expand(cfg, letters[1..]) + rest;
        ExpandParses(cfg, letters[1..], rest);
        SingleLetter(cfg, c, tail);
        assert Expand(cfg, letters) + rest == [['-', c]] + tail;
        assert [c][1..] == [];
      } else if c in cfg.shorthands && |letters| > 1 {
        SingleLetter(cfg, c, [letters[1..]] + rest);
        assert Expand(cfg, letters) + rest == [['-', c]] + ([letters[1..]] + rest);
        assert ([letters[1..]] + rest)[1..] == rest;
      } else {
        SingleLetter(cfg, c, rest);
        assert c in cfg.shorthands ==> letters == [c];
      }
    }
  }

  /** Where a dash is looked up, the written-out form meets the terminator instead. */
  lemma {:induction false} DashDiffers(cfg: Config, letters: string, rest: seq<string>)
    requires !NoDash(cfg, letters)
    ensures Parse(cfg, Expand(cfg, letters) + rest) != ParseCluster(cfg, letters, rest)
    decreases |letters|
  {
    var c := letters[0];
    if c == '-' {
      assert (Expand(cfg, letters) + rest)[0] == "--";
    } else {
      var tail := Expand(cfg, letters[1..]) + rest;
      DashDiffers(cfg, letters[1..], rest);
      SingleLetter(cfg, c, tail);
      assert Expand(cfg, letters) + rest == [['-', c]] + tail;
      assert [c][1..] == [];
      var o, o' := ParseCluster(cfg, letters[1..], rest), Parse(cfg, tail);
      assert ([Setting(cfg.shorthands[c].name, "true")] + o.sets)[1..] == o.sets;
      assert ([Setting(cfg.shorthands[c].name, "true")] + o'.sets)[1..] == o'.sets;
    }
  }

  /** A cluster parses like its expansion (`-abn5` like `-a -b -n 5`), settings, positional
      arguments and failures alike, exactly when no letter looked up in it is a dash. */
  lemma ClusterIsExpansionIff(cfg: Config, letters: string, rest: seq<string>)
    requires letters != [] && letters[0] != '-'
    ensures Parse(cfg, [['-'] + letters] + rest) == Parse(cfg, Expand(cfg, letters) + rest) <==> NoDash(cfg, letters)
  {
    var s := ['-'] + letters;
    assert s[1..] == letters && ([s] + rest)[1..] == rest && s[1] == letters[0];
    if NoDash(cfg, letters) { ExpandParses(cfg, letters, rest); } else { DashDiffers(cfg, letters, rest); }
  }

  // ---------------------------------------------------------------- What is printed is parsed

  /** A flag given its value, in each way there is, or a positional argument. */
  datatype Given =
    | LongValue(name: string, value: string)  // --name=value
    | LongBool(name: string)                  // --name
    | ShortBool(c: char)                      // -c
    | ShortValue(c: char, value: string)      // -c value
    | ShortGlued(c: char, value: string)      // -cvalue
    | Word(arg: string)

  function Tokens(g: Given): seq<string> {
    match g
    case LongValue(name, value) => ["--" + name + "=" + value]
    case LongBool(name) => ["--" + name]
    case ShortBool(c) => [['-', c]]
    case ShortValue(c, value) => [['-', c], value]
    case ShortGlued(c, value) => [['-', c] + value]
    case Word(arg) => [arg]
  }

  function Print(gs: seq<Given>): seq<string> { if gs == [] then [] else Tokens(gs[0]) + Print(gs[1..]) }

  predicate GoodName(name: string) { name != "" && name[0] != '-' && '=' !in name }

  predicate IsWord(arg: string) { arg == "" || arg == "-" || arg[0] != '-' }

  /** The flag is defined and takes the value; a boolean flag is given none. A letter is not a dash. */
  predicate Fine(cfg: Config, g: Given) {
    match g
    case LongValue(name, value) => GoodName(name) && name in cfg.formal && cfg.accepts(cfg.formal[name].name, value)
    case LongBool(name) => GoodName(name) && name in cfg.formal && cfg.formal[name].isBool
    case ShortBool(c) => c != '-' && c in cfg.shorthands && cfg.shorthands[c].isBool
    case ShortValue(c, value) => TakesValue(cfg, c) && cfg.accepts(cfg.shorthands[c].name, value)
    case ShortGlued(c, value) => TakesValue(cfg, c) && cfg.accepts(cfg.shorthands[c].name, value) && value != ""
    case Word(arg) => cfg.interspersed && IsWord(arg)
  }

  predicate TakesValue(cfg: Config, c: char) { c != '-' && c in cfg.shorthands && !cfg.shorthands[c].isBool }

  predicate AllFine(cfg: Config, gs: seq<Given>) { forall i :: 0 <= i < |gs| ==> Fine(cfg, gs[i]) }

  /** What is to be set; "true" where a boolean flag is given. */
  function SettingsOf(cfg: Config, gs: seq<Given>): seq<Setting>
    requires AllFine(cfg, gs)
  {
    if gs == [] then []
    else
      (match gs[0]
       case LongValue(name, value) => [Setting(cfg.formal[name].name, value)]
       case LongBool(name) => [Setting(cfg.formal[name].name, "true")]
       case ShortBool(c) => [Setting(cfg.shorthands[c].name, "true")]
       case ShortValue(c, value) => [Setting(cfg.shorthands[c].name, value)]
       case ShortGlued(c, value) => [Setting(cfg.shorthands[c].name, value)]
       case Word(_) => []) + SettingsOf(cfg, gs[1..])
  }

  function WordsOf(gs: seq<Given>): seq<string> {
    if gs == [] then [] else (if gs[0].Word? then [gs[0].arg] else []) + WordsOf(gs[1..])
  }

  lemma LongIs(cfg: Config, name: string, value: string)
    requires GoodName(name)
    ensures var s := "--" + name + "=" + value;
      && IsLong(s) && |s| > 2 && s[2..] == name + "=" + value && s[2] == name[0] && name[0] != '='
      && IndexOf(s[2..], '=') == |name| && s[2..][..|name|] == name && s[2..][|name| + 1..] == value
  {
    var s := "--" + name + "=" + value;
    assert s[2..] == name + "=" + value;
    IndexOfFirst(name, '=', value);
  }

  lemma LongAloneIs(cfg: Config, name: string)
    requires GoodName(name)
    ensures var s := "--" + name;
      && IsLong(s) && |s| > 2 && s[2..] == name && name[0] != '='
      && IndexOf(name, '=') == |name| && name[..|name|] == name
  {
    IndexOfIs(name, '=');
    assert ("--" + name)[2..] == name;
  }

  lemma LetterIs(c: char, value: string, rest: seq<string>)
    requires c != '-'
    ensures var s := ['-', c] + value;
      && IsCluster(s) && s[1..] == [c] + value && ([c] + value)[1..] == value && ([s] + rest)[1..] == rest
  {
  }

  lemma ValueIs(value: string, rest: seq<string>, c: char)
    ensures ([['-', c], value] + rest)[1..] == [value] + rest && ([value] + rest)[1..] == rest
    ensures ['-', c] + "" == ['-', c] && [c] + "" == [c]
  {
  }

  lemma LongValueParses(cfg: Config, name: string, value: string, rest: seq<string>)
    requires Fine(cfg, LongValue(name, value))
    ensures Parse(cfg, ["--" + name + "=" + value] + rest) == AddSet(cfg.formal[name], value, Parse(cfg, rest))
  {
    LongIs(cfg, name, value);
    assert (["--" + name + "=" + value] + rest)[1..] == rest;
  }

  lemma LongBoolParses(cfg: Config, name: string, rest: seq<string>)
    requires Fine(cfg, LongBool(name))
    ensures Parse(cfg, ["--" + name] + rest) == AddSet(cfg.formal[name], "true", Parse(cfg, rest))
  {
    LongAloneIs(cfg, name);
    assert (["--" + name] + rest)[1..] == rest;
  }

  lemma ShortBoolParses(cfg: Config, c: char, rest: seq<string>)
    requires Fine(cfg, ShortBool(c))
    ensures Parse(cfg, [['-', c]] + rest) == AddSet(cfg.shorthands[c], "true", Parse(cfg, rest))
  {
    SingleLetter(cfg, c, rest);
    assert [c][1..] == [];
  }

  lemma ShortValueParses(cfg: Config, c: char, value: string, rest: seq<string>)
    requires Fine(cfg, ShortValue(c, value))
    ensures Parse(cfg, [['-', c], value] + rest) == AddSet(cfg.shorthands[c], value, Parse(cfg, rest))
  {
    ValueIs(value, rest, c);
    SingleLetter(cfg, c, [value] + rest);
    assert [['-', c], value] + rest == [['-', c]] + ([value] + rest);
  }

  lemma ShortGluedParses(cfg: Config, c: char, value: string, rest: seq<string>)
    requires Fine(cfg, ShortGlued(c, value))
    ensures Parse(cfg, [['-', c] + value] + rest) == AddSet(cfg.shorthands[c], value, Parse(cfg, rest))
  {
    LetterIs(c, value, rest);
  }

  lemma AfterOne(flag: Flag, value: string, arg: string, o: Outcome)
    ensures After([Setting(flag.name, value)] + [], [] + [], o) == AddSet(flag, value, o)
    ensures After([] + [], [arg] + [], o) == AddArg(arg, o)
  {
    assert [Setting(flag.name, value)] + [] == [Setting(flag.name, value)];
    assert [] + o.args == o.args && [] + o.sets == o.sets && [arg] + [] == [arg];
  }

  /** One flag given, or one word, in front of anything. */
  lemma GivenParses(cfg: Config, g: Given, rest: seq<string>)
    requires Fine(cfg, g)
    ensures Parse(cfg, Tokens(g) + rest) == After(SettingsOf(cfg, [g]), WordsOf([g]), Parse(cfg, rest))
  {
    assert [g][1..] == [];
    var o := Parse(cfg, rest);
    match g
    case LongValue(name, value) =>
      LongValueParses(cfg, name, value, rest);
      AfterOne(cfg.formal[name], value, "", o);
    case LongBool(name) =>
      LongBoolParses(cfg, name, rest);
      AfterOne(cfg.formal[name], "true", "", o);
    case ShortBool(c) =>
      ShortBoolParses(cfg, c, rest);
      AfterOne(cfg.shorthands[c], "true", "", o);
    case ShortValue(c, value) =>
      ShortValueParses(cfg, c, value, rest);
      AfterOne(cfg.shorthands[c], value, "", o);
    case ShortGlued(c, value) =>
      ShortGluedParses(cfg, c, value, rest);
      AfterOne(cfg.shorthands[c], value, "", o);
    case Word(arg) =>
      assert ([arg] + rest)[0] == arg && ([arg] + rest)[1..] == rest;
      AfterOne(Flag("", false), "", arg, o);
  }

  lemma AfterTwice(sets: seq<Setting>, args: seq<string>, sets': seq<Setting>, args': seq<string>, o: Outcome)
    ensures After(sets, args, After(sets', args', o)) == After(sets + sets', args + args', o)
  {
    Associate(sets, sets', o.sets);
    Associate(args, args', o.args);
  }

  lemma Apart(cfg: Config, g: Given, gs: seq<Given>)
    requires AllFine(cfg, [g] + gs)
    ensures AllFine(cfg, gs) && AllFine(cfg, [g])
    ensures SettingsOf(cfg, [g] + gs) == SettingsOf(cfg, [g]) + SettingsOf(cfg, gs)
    ensures WordsOf([g] + gs) == WordsOf([g]) + WordsOf(gs)
  {
    assert forall i :: 0 <= i < |gs| ==> ([g] + gs)[i + 1] == gs[i];
    assert ([g] + gs)[0] == g && ([g] + gs)[1..] == gs && [g][1..] == [];
  }

  /** Any flags given and words, in front of anything: they are set in order, each to its value, and
      the words are positional. */
  lemma {:induction false} PrintedParses(cfg: Config, gs: seq<Given>, rest: seq<string>)
    requires AllFine(cfg, gs)
    ensures Parse(cfg, Print(gs) + rest) == After(SettingsOf(cfg, gs), WordsOf(gs), Parse(cfg, rest))
    decreases |gs|
  {
    if gs == [] {
      assert Print(gs) + rest == rest;
    } else {
      var g, gs' := gs[0], gs[1..];
      assert gs == [g] + gs';
      Apart(cfg, g, gs');
      PrintedParses(cfg, gs', rest);
      GivenParses(cfg, g, Print(gs') + rest);
      Associate(Tokens(g), Print(gs'), rest);
      AfterTwice(SettingsOf(cfg, [g]), WordsOf([g]), SettingsOf(cfg, gs'), WordsOf(gs'), Parse(cfg, rest));
    }
  }

  /** The round trip: printed settings, then `--` and anything, parse to exactly those settings and
      positional arguments; and so they do alone. */
  lemma SettingsRoundTrip(cfg: Config, gs: seq<Given>, extra: seq<string>)
    requires AllFine(cfg, gs)
    ensures Parse(cfg, Print(gs) + ["--"] + extra) == Outcome(Success, SettingsOf(cfg, gs), WordsOf(gs) + extra)
    ensures Parse(cfg, Print(gs)) == Outcome(Success, SettingsOf(cfg, gs), WordsOf(gs))
  {
    PrintedParses(cfg, gs, ["--"] + extra);
    Associate(Print(gs), ["--"], extra);
    assert (["--"] + extra)[1..] == extra;
    PrintedParses(cfg, gs, []);
    assert Print(gs) + [] == Print(gs);
  }

  /** Without interspersed arguments the first word ends the flags. */
  lemma FirstWordEnds(cfg: Config, gs: seq<Given>, arg: string, extra: seq<string>)
    requires AllFine(cfg, gs) && !cfg.interspersed && IsWord(arg)
    ensures Parse(cfg, Print(gs) + ([arg] + extra)) == Outcome(Success, SettingsOf(cfg, gs), [arg] + extra)
  {
    PrintedParses(cfg, gs, [arg] + extra);
    NoWords(cfg, gs);
  }

  lemma {:induction false} NoWords(cfg: Config, gs: seq<Given>)
    requires AllFine(cfg, gs) && !cfg.interspersed
    ensures WordsOf(gs) == []
  {
    if gs != [] { NoWords(cfg, gs[1..]); }
  }

  /** How each wrong token fails, in front of anything. A refused value counts as set, and is the
      last. */
  ghost predicate Fails(cfg: Config, token: seq<string>, why: Failure, sets: seq<Setting>) {
    forall rest :: Parse(cfg, token + rest) == Outcome(Failed(why), sets, [])
  }

  lemma UnknownFails(cfg: Config, name: string, value: string)
    requires GoodName(name) && name !in cfg.formal
    ensures var why := if name == "help" then Help else Unknown;
      Fails(cfg, ["--" + name], why, []) && Fails(cfg, ["--" + name + "=" + value], why, [])
  {
    LongIs(cfg, name, value);
    LongAloneIs(cfg, name);
  }

  lemma NoArgumentFails(cfg: Config, name: string)
    requires GoodName(name) && name in cfg.formal && !cfg.formal[name].isBool
    ensures Fails(cfg, ["--" + name], NeedsArgument, [])
  {
    LongAloneIs(cfg, name);
  }

  lemma RefusedFails(cfg: Config, name: string, value: string)
    requires GoodName(name) && name in cfg.formal && !cfg.accepts(cfg.formal[name].name, value)
    ensures Fails(cfg, ["--" + name + "=" + value], Invalid, [Setting(cfg.formal[name].name, value)])
  {
    LongIs(cfg, name, value);
  }

  lemma BadSyntaxFails(cfg: Config, tail: string)
    ensures Fails(cfg, ["---" + tail], BadSyntax, []) && Fails(cfg, ["--=" + tail], BadSyntax, [])
  {
    assert ("---" + tail)[2..] == "-" + tail && ("--=" + tail)[2..] == "=" + tail;
  }

  lemma LetterFailures(cfg: Config, c: char, value: string)
    requires c != '-'
    ensures c !in cfg.shorthands ==> Fails(cfg, [['-', c] + value], if c == 'h' then Help else UnknownShorthand(c), [])
    ensures TakesValue(cfg, c) ==> Parse(cfg, [['-', c]]) == Outcome(Failed(NeedsArgument), [], [])
    ensures TakesValue(cfg, c) && !cfg.accepts(cfg.shorthands[c].name, value) ==>
      && Fails(cfg, [['-', c], value], Invalid, [Setting(cfg.shorthands[c].name, value)])
      && (value != "" ==> Fails(cfg, [['-', c] + value], Invalid, [Setting(cfg.shorthands[c].name, value)]))
  {
    forall rest ensures Parse(cfg, [['-', c] + value] + rest) == ParseCluster(cfg, [c] + value, rest) {
      LetterIs(c, value, rest);
    }
    forall rest ensures Parse(cfg, [['-', c], value] + rest) == ParseCluster(cfg, [c], [value] + rest) {
      SingleLetter(cfg, c, [value] + rest);
      assert [['-', c], value] + rest == [['-', c]] + ([value] + rest);
    }
    SingleLetter(cfg, c, []);
    assert [['-', c]] + [] == [['-', c]] && ([c] + value)[1..] == value;
  }

  /** A wrong token after any flags given and words: they are set first, and then it fails. */
  lemma FailsAfter(cfg: Config, gs: seq<Given>, token: seq<string>, why: Failure, sets: seq<Setting>, rest: seq<string>)
    requires AllFine(cfg, gs) && Fails(cfg, token, why, sets)
    ensures Parse(cfg, Print(gs) + (token + rest)) == Outcome(Failed(why), SettingsOf(cfg, gs) + sets, WordsOf(gs))
  {
    PrintedParses(cfg, gs, token + rest);
  }

  // ---------------------------------------------------------------- The flag set

  /** What is left to do, added to what has been done. */
  function After(sets: seq<Setting>, args: seq<string>, o: Outcome): Outcome {
    Outcome(o.result, sets + o.sets, args + o.args)
  }

  lemma AfterAdds(sets: seq<Setting>, args: seq<string>, o: Outcome)
    ensures forall f, v :: After(sets, args, AddSet(f, v, o)) == After(sets + [Setting(f.name, v)], args, o)
    ensures forall a :: After(sets, args, AddArg(a, o)) == After(sets, args + [a], o)
  {
    forall f: Flag, v ensures After(sets, args, AddSet(f, v, o)) == After(sets + [Setting(f.name, v)], args, o) {
      assert sets + ([Setting(f.name, v)] + o.sets) == sets + [Setting(f.name, v)] + o.sets;
    }
    forall a ensures After(sets, args, AddArg(a, o)) == After(sets, args + [a], o) {
      assert args + ([a] + o.args) == args + [a] + o.args;
    }
  }

  /** The flags that have been set to a value they accept. */
  function Visited(cfg: Config, sets: seq<Setting>): set<string> {
    set s | s in sets && cfg.accepts(s.flag, s.value) :: s.flag
  }

  class FlagSet {
    const cfg: Config
    var args: seq<string>
    var actual: set<string>        // names of the flags set successfully
    var sets: seq<Setting>         // calls of Value.Set, in order

    constructor (cfg: Config)
      ensures this.cfg == cfg && args == [] && actual == {} && sets == [] && Valid()
    {
      this.cfg, args, actual, sets := cfg, [], {}, [];
    }

    ghost predicate Valid()
      reads this
    {
      actual == Visited(cfg, sets)
    }

    method SetFlag(flag: Flag, value: string) returns (ok: bool)
      requires Valid()
      modifies `sets, `actual
      ensures Valid()
      ensures ok == Accepts(cfg, flag, value) && sets == old(sets) + [Setting(flag.name, value)]
      ensures actual == if ok then old(actual) + {flag.name} else old(actual)
    {
      ghost var was := sets;
      sets := sets + [Setting(flag.name, value)];
      assert forall s :: s in sets <==> s in was || s == Setting(flag.name, value);
      ok := cfg.accepts(flag.name, value);
      if ok { actual := actual + {flag.name}; }
    }

    /** The loop over the letters of one token: either the parse ends here, or what is left of it
        is the parse of `rest`. */
    method Letters(letters: string, following: seq<string>) returns (result: Result, rest: seq<string>)
      requires Valid()
      modifies `sets, `actual
      ensures Valid()
      ensures |rest| <= |following|
      ensures After(old(sets), args, ParseCluster(cfg, letters, following))
              == After(sets, args, if result.Success? then Parse(cfg, rest) else Outcome(result, [], []))
    {
      var i := 0;
      rest := following;
      while i < |letters|
        invariant Valid() && i <= |letters| && rest == following
        invariant After(old(sets), args, ParseCluster(cfg, letters, following))
                  == After(sets, args, ParseCluster(cfg, letters[i..], rest))
      {
        var c := letters[i];
        assert letters[i..][0] == c && letters[i..][1..] == letters[i + 1..];
        if c !in cfg.shorthands { return Failed(if c == 'h' then Help else UnknownShorthand(c)), rest; }
        var flag := cfg.shorthands[c];
        if flag.isBool {
          AfterAdds(sets, args, ParseCluster(cfg, letters[i + 1..], rest));
          var _ := SetFlag(flag, "true");
          i := i + 1;
          continue;
        }
        var ok;
        if i < |letters| - 1 {
          AfterAdds(sets, args, if Accepts(cfg, flag, letters[i + 1..]) then Parse(cfg, rest) else Fail(Invalid));
          ok := SetFlag(flag, letters[i + 1..]);
          return if ok then Success else Failed(Invalid), rest;
        }
        if rest == [] { return Failed(NeedsArgument), rest; }
        AfterAdds(sets, args, if Accepts(cfg, flag, rest[0]) then Parse(cfg, rest[1..]) else Fail(Invalid));
        ok := SetFlag(flag, rest[0]);
        if !ok { return Failed(Invalid), rest; }
        return Success, rest[1..];
      }
      assert letters[i..] == [];
      return Success, rest;
    }

    /** `parseArgs` is `Parse`, and the flags that count as visited are those set to a value they
        accept. */
    method ParseArgs(arguments: seq<string>) returns (result: Result)
      requires Valid()
      modifies `args, `sets, `actual
      ensures Valid()
      ensures var o := Parse(cfg, arguments);
              result == o.result && sets == old(sets) + o.sets && args == old(args) + o.args
    {
      var rest := arguments;
      while rest != []
        invariant Valid()
        invariant After(old(sets), old(args), Parse(cfg, arguments)) == After(sets, args, Parse(cfg, rest))
        decreases |rest|
      {
        var s := rest[0];
        rest := rest[1..];
        if |s| == 0 || s[0] != '-' || |s| == 1 {
          if !cfg.interspersed {
            assert args + ([s] + rest) == args + [s] + rest;
            args := args + [s];
            args := args + rest;
            return Success;
          }
          AfterAdds(sets, args, Parse(cfg, rest));
          args := args + [s];
          continue;
        }
        if s[1] == '-' {
          if |s| == 2 {
            args := args + rest;
            return Success;
          }
          var token := LongToken(cfg, s);
          match token
          case Stops(why) => return Failed(why);
          case Rejects(flag, value) =>
            AfterAdds(sets, args, Fail(Invalid));
            var _ := SetFlag(flag, value);
            return Failed(Invalid);
          case Sets(flag, value) =>
            AfterAdds(sets, args, Parse(cfg, rest));
            var _ := SetFlag(flag, value);
        } else {
          result, rest := Letters(s[1..], rest);
          if result.Failed? { return; }
        }
      }
      result := Success;
    }
  }
}
