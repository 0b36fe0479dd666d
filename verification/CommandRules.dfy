/**
 What the scanner blocks, said without its loops: which program names and options offend, where a nested command
 starts, and that a command is blocked exactly when some token of it offends, at whatever level.
 */
module CommandRules {
  import opened Common
  import opened CommandScanner
  import Chunker

  /* ---------- options ---------- */

  /** The argument at `i` stands before any end-of-options marker. */
  ghost predicate OptionAt(args: seq<string>, i: int) {
    0 <= i < |args| && forall j :: 0 <= j <= i ==> args[j] != "--"
  }

  /** A dash and letters, one of `letters` among them. */
  ghost predicate Cluster(arg: string, letters: string) {
    && |arg| >= 2 && arg[0] == '-'
    && (forall i :: 1 <= i < |arg| ==> 'a' <= arg[i] <= 'z' || 'A' <= arg[i] <= 'Z')
    && (exists i :: 1 <= i < |arg| && arg[i] in letters)
  }

  /** `a` and `b` are the same letter, or the same other character, when case does not count. */
  ghost predicate SameLetter(a: char, b: char) {
    a == b || ('A' <= a <= 'Z' && b as int == a as int + 32)
  }

  /** `arg` is `text` in lower or upper case, where `text` has no upper case of its own. */
  ghost predicate Reads(arg: string, text: string) {
    |arg| == |text| && forall i :: 0 <= i < |arg| ==> SameLetter(arg[i], text[i])
  }

  ghost predicate NoUpper(text: string) {
    forall i :: 0 <= i < |text| ==> !('A' <= text[i] <= 'Z')
  }

  /** At least `least` characters of a parameter name, from its beginning. */
  ghost predicate Abbreviates(arg: string, parameter: string, least: nat) {
    least <= |arg| <= |parameter| && Reads(arg, parameter[..|arg|])
  }

  /** A `/s` switch, alone or among others. */
  ghost predicate RecursiveSwitch(arg: string) {
    arg != "" && arg[0] == '/' && exists i :: 0 <= i < |arg| - 1 && arg[i] == '/' && (arg[i + 1] == 's' || arg[i + 1] == 'S')
  }

  /* ---------- the rules ---------- */

  ghost predicate RmOffends(args: seq<string>) {
    exists i :: OptionAt(args, i) && (Cluster(args[i], "rRf") || args[i] == "--recursive" || args[i] == "--force")
  }

  ghost predicate RemoveItemOffends(args: seq<string>) {
    exists i :: 0 <= i < |args| && (Abbreviates(args[i], "-recurse", 2) || Abbreviates(args[i], "-force", 3))
  }

  ghost predicate WindowsDeleteOffends(args: seq<string>) {
    RemoveItemOffends(args) || exists i :: 0 <= i < |args| && RecursiveSwitch(args[i])
  }

  ghost predicate PushOffends(args: seq<string>) {
    || (exists i :: OptionAt(args, i) && (Cluster(args[i], "f") || "--force" <= args[i]))
    || (exists i :: 0 <= i < |args| && args[i] != "" && args[i][0] == '+')
  }

  ghost predicate SubcommandOffends(subcommand: string, args: seq<string>) {
    || (Reads(subcommand, "reset") && exists i :: OptionAt(args, i) && args[i] == "--hard")
    || (Reads(subcommand, "clean") && exists i :: OptionAt(args, i) && (Cluster(args[i], "f") || args[i] == "--force"))
    || (Reads(subcommand, "push") && PushOffends(args))
    || ((Reads(subcommand, "diff") || Reads(subcommand, "log") || Reads(subcommand, "show"))
        && exists i :: OptionAt(args, i) && (args[i] == "--output" || "--output=" <= args[i]))
  }

  /** The subcommand stands at `at`: before it only global options, each with its value if it takes one. */
  ghost predicate SubcommandAt(args: seq<string>, at: nat) {
    at < |args| && !("-" <= args[at]) && exists options: seq<GlobalOption> :: AreTokensOf(args[..at], options)
  }

  ghost predicate AreTokensOf(tokens: seq<string>, options: seq<GlobalOption>) {
    TokensOf(options) == tokens && forall i :: 0 <= i < |options| ==> GlobalOptionOk(options[i])
  }

  ghost predicate GitOffends(args: seq<string>) {
    exists at: nat :: SubcommandAt(args, at) && SubcommandOffends(args[at], args[at + 1..])
  }

  ghost predicate ProbeOffends(args: seq<string>) {
    exists i :: 0 <= i < |args| && (args[i] == "--manifest" || "--manifest=" <= args[i])
  }

  ghost predicate RuleApplies(program: string, args: seq<string>) {
    || (program == "rm" && RmOffends(args))
    || ((program == "remove-item" || program == "ri") && RemoveItemOffends(args))
    || ((program == "del" || program == "erase" || program == "rd" || program == "rmdir") && WindowsDeleteOffends(args))
    || (program == "git" && GitOffends(args))
    || (program == "guard_probe.py" && ProbeOffends(args))
  }

  /* ---------- the checkers follow the rules ---------- */

  lemma {:induction false} OptionsAre(args: seq<string>, x: string)
    ensures x in Options(args) <==> exists i :: OptionAt(args, i) && args[i] == x
  {
    if args == [] || args[0] == "--" {
    } else {
      var rest := args[1..];
      OptionsAre(rest, x);
      if i :| OptionAt(rest, i) && rest[i] == x {
        assert forall j :: 1 <= j <= i + 1 ==> args[j] == rest[j - 1];
        assert OptionAt(args, i + 1) && args[i + 1] == x;
      }
      if i :| OptionAt(args, i) && args[i] == x {
        if i == 0 {
          assert x in Options(args);
        } else {
          assert forall j :: 0 <= j <= i - 1 ==> rest[j] == args[j + 1];
          assert OptionAt(rest, i - 1) && rest[i - 1] == x;
        }
      } else if args[0] == x {
        assert OptionAt(args, 0);
      }
    }
  }

  /** Where an option stands. */
  lemma OptionPlace(args: seq<string>, x: string) returns (i: int)
    requires x in Options(args)
    ensures OptionAt(args, i) && args[i] == x
  {
    OptionsAre(args, x);
    i :| OptionAt(args, i) && args[i] == x;
  }

  lemma {:induction false} OptionsTwice(args: seq<string>)
    ensures Options(Options(args)) == Options(args)
  {
    if args != [] && args[0] != "--" {
      OptionsTwice(args[1..]);
      assert Options(args)[0] == args[0] && Options(args)[1..] == Options(args[1..]);
    }
  }

  lemma ClusterIs(arg: string, letters: string, chars: set<char>)
    requires forall c :: c in letters <==> c in chars
    ensures IsFlagWith(arg, chars) <==> Cluster(arg, letters)
  {
  }

  lemma FlagIs(args: seq<string>, letters: string, chars: set<char>)
    requires forall c :: c in letters <==> c in chars
    ensures HasShortFlag(args, chars) <==> exists i :: OptionAt(args, i) && Cluster(args[i], letters)
    ensures HasShortFlag(Options(args), chars) <==> HasShortFlag(args, chars)
  {
    OptionsTwice(args);
    if arg :| arg in Options(args) && IsFlagWith(arg, chars) {
      OptionsAre(args, arg);
      ClusterIs(arg, letters, chars);
      var i :| OptionAt(args, i) && args[i] == arg;
      assert Cluster(args[i], letters);
    }
    if i :| OptionAt(args, i) && Cluster(args[i], letters) {
      OptionsAre(args, args[i]);
      ClusterIs(args[i], letters, chars);
    }
  }

  lemma {:induction false} LowerIs(s: string)
    ensures |Lower(s)| == |s|
    ensures forall i :: 0 <= i < |s| ==> Lower(s)[i] == LowerChar(s[i])
  {
    if s != "" {
      LowerIs(s[1..]);
    }
  }

  lemma LowerReads(arg: string, text: string)
    requires NoUpper(text)
    ensures Lower(arg) == text <==> Reads(arg, text)
  {
    LowerIs(arg);
    if Lower(arg) == text {
      forall i | 0 <= i < |arg| ensures SameLetter(arg[i], text[i]) {
        assert text[i] == LowerChar(arg[i]);
      }
    }
    if Reads(arg, text) {
      forall i | 0 <= i < |arg| ensures Lower(arg)[i] == text[i] {
        assert SameLetter(arg[i], text[i]);
      }
    }
  }

  lemma AbbreviationIs(arg: string, parameter: string, least: nat)
    requires NoUpper(parameter)
    ensures IsPowershellAbbrev(arg, parameter, least) <==> Abbreviates(arg, parameter, least)
  {
    LowerIs(arg);
    if |arg| <= |parameter| {
      assert NoUpper(parameter[..|arg|]);
      LowerReads(arg, parameter[..|arg|]);
      assert Lower(arg) <= parameter <==> Lower(arg) == parameter[..|arg|];
    }
  }

  lemma RmIs(args: seq<string>)
    ensures CheckRm(args).Some? <==> RmOffends(args)
  {
    FlagIs(args, "rRf", {'r', 'R', 'f'});
    OptionsAre(args, "--recursive");
    OptionsAre(args, "--force");
    hide Options, OptionAt, Cluster, HasShortFlag;
  }

  lemma RemoveItemIs(args: seq<string>)
    ensures CheckPowershellRemove(args).Some? <==> RemoveItemOffends(args)
  {
    forall arg
      ensures IsPowershellAbbrev(arg, "-recurse", 2) <==> Abbreviates(arg, "-recurse", 2)
      ensures IsPowershellAbbrev(arg, "-force", 3) <==> Abbreviates(arg, "-force", 3)
    {
      AbbreviationIs(arg, "-recurse", 2);
      AbbreviationIs(arg, "-force", 3);
    }
    hide IsPowershellAbbrev, Abbreviates;
  }

  /** `a` and `b` stand side by side in `s`. */
  ghost predicate PairAt(s: string, a: char, b: char, i: int) {
    0 <= i < |s| - 1 && s[i] == a && s[i + 1] == b
  }

  lemma {:induction false} ContainsIs(s: string, a: char, b: char)
    ensures Contains(s, [a, b]) <==> exists i :: PairAt(s, a, b, i)
  {
    assert [a, b] <= s <==> PairAt(s, a, b, 0);
    if s != "" {
      ContainsIs(s[1..], a, b);
      assert forall i :: PairAt(s[1..], a, b, i) ==> PairAt(s, a, b, i + 1);
      assert forall i :: PairAt(s, a, b, i) && i != 0 ==> PairAt(s[1..], a, b, i - 1);
    }
  }

  lemma SwitchIs(arg: string)
    ensures "/" <= arg && Contains(Lower(arg), "/s") <==> RecursiveSwitch(arg)
  {
    LowerIs(arg);
    ContainsIs(Lower(arg), '/', 's');
    assert ['/', 's'] == "/s";
    if i :| PairAt(Lower(arg), '/', 's', i) {
      assert arg[i] == '/' && (arg[i + 1] == 's' || arg[i + 1] == 'S');
    }
    if i :| 0 <= i < |arg| - 1 && arg[i] == '/' && (arg[i + 1] == 's' || arg[i + 1] == 'S') {
      assert PairAt(Lower(arg), '/', 's', i);
    }
  }

  lemma WindowsDeleteIs(args: seq<string>)
    ensures CheckWindowsDelete(args).Some? <==> WindowsDeleteOffends(args)
  {
    RemoveItemIs(args);
    if i :| 0 <= i < |args| && RecursiveSwitch(args[i]) {
      SwitchIs(args[i]);
    }
    if arg :| arg in args && "/" <= arg && Contains(Lower(arg), "/s") {
      SwitchIs(arg);
      var i :| 0 <= i < |args| && args[i] == arg;
    }
    hide RemoveItemOffends, CheckPowershellRemove, Contains, RecursiveSwitch;
  }

  lemma ForcedIs(args: seq<string>)
    ensures (exists arg :: arg in Options(args) && "--force" <= arg) <==> exists i :: OptionAt(args, i) && "--force" <= args[i]
  {
    if i :| OptionAt(args, i) && "--force" <= args[i] {
      OptionsAre(args, args[i]);
    }
    if arg :| arg in Options(args) && "--force" <= arg {
      var i := OptionPlace(args, arg);
    }
    hide Options, OptionAt;
  }

  lemma PlusIs(args: seq<string>)
    ensures (exists arg :: arg in args && "+" <= arg) <==> exists i :: 0 <= i < |args| && args[i] != "" && args[i][0] == '+'
  {
    if i :| 0 <= i < |args| && args[i] != "" && args[i][0] == '+' {
      assert args[i] in args && "+" <= args[i];
    }
    if arg :| arg in args && "+" <= arg {
      var i :| 0 <= i < |args| && args[i] == arg;
      assert args[i][0] == '+';
    }
  }

  lemma PushIs(args: seq<string>)
    ensures CheckGitPush(args).Some? <==> PushOffends(args)
  {
    FlagIs(args, "f", {'f'});
    ForcedIs(args);
    PlusIs(args);
    hide Options, OptionAt, Cluster, HasShortFlag;
  }

  lemma CleanIs(args: seq<string>)
    ensures (HasShortFlag(Options(args), {'f'}) || "--force" in Options(args))
            <==> exists i :: OptionAt(args, i) && (Cluster(args[i], "f") || args[i] == "--force")
  {
    FlagIs(args, "f", {'f'});
    OptionsAre(args, "--force");
    hide Options, OptionAt, Cluster, HasShortFlag;
  }

  lemma OutputIs(args: seq<string>)
    ensures (exists arg :: arg in Options(args) && (arg == "--output" || "--output=" <= arg))
            <==> exists i :: OptionAt(args, i) && (args[i] == "--output" || "--output=" <= args[i])
  {
    if i :| OptionAt(args, i) && (args[i] == "--output" || "--output=" <= args[i]) {
      OptionsAre(args, args[i]);
    }
    if arg :| arg in Options(args) && (arg == "--output" || "--output=" <= arg) {
      var i := OptionPlace(args, arg);
    }
    hide Options;
  }

  lemma HardIs(args: seq<string>)
    ensures "--hard" in Options(args) <==> exists i :: OptionAt(args, i) && args[i] == "--hard"
  {
    OptionsAre(args, "--hard");
  }

  lemma SubcommandIs(subcommand: string, args: seq<string>)
    ensures CheckSubcommand(Lower(subcommand), args).Some? <==> SubcommandOffends(subcommand, args)
  {
    hide Options, OptionAt, Cluster, HasShortFlag, Reads, Lower, PushOffends, CheckGitPush;
    LowerReads(subcommand, "reset");
    LowerReads(subcommand, "clean");
    LowerReads(subcommand, "push");
    LowerReads(subcommand, "diff");
    LowerReads(subcommand, "log");
    LowerReads(subcommand, "show");
    HardIs(args);
    CleanIs(args);
    PushIs(args);
    OutputIs(args);
  }

  lemma TakesValueStartsWithDash(option: string)
    requires TakesValue(option)
    ensures "-" <= option
  {
  }

  lemma SubcommandFound(args: seq<string>, at: nat)
    requires SubcommandAt(args, at)
    ensures GitSubcommand(args) == (Lower(args[at]), args[at + 1..])
  {
    hide TakesValue, GitSubcommand, Lower, TokensOf;
    var options: seq<GlobalOption> :| AreTokensOf(args[..at], options);
    if TakesValue(args[at]) {
      TakesValueStartsWithDash(args[at]);
    }
    GlobalOptionsAreSkipped(options, args[at], args[at + 1..]);
    assert args == TokensOf(options) + [args[at]] + args[at + 1..];
  }

  lemma OptionInFront(tokens: seq<string>, option: GlobalOption, options: seq<GlobalOption>)
    requires GlobalOptionOk(option) && AreTokensOf(tokens, options)
    ensures AreTokensOf(TokensOfOne(option) + tokens, [option] + options)
  {
    hide GlobalOptionOk, TokensOfOne;
    assert ([option] + options)[1..] == options;
  }

  /** One option more in front of a subcommand. */
  lemma SubcommandBehind(args: seq<string>, option: GlobalOption, at: nat)
    requires GlobalOptionOk(option) && TokensOfOne(option) <= args && SubcommandAt(args[|TokensOfOne(option)|..], at)
    ensures SubcommandAt(args, |TokensOfOne(option)| + at)
  {
    var n := |TokensOfOne(option)|;
    var rest := args[n..];
    hide TokensOfOne, GlobalOptionOk;
    var options: seq<GlobalOption> :| AreTokensOf(rest[..at], options);
    OptionInFront(rest[..at], option, options);
    hide AreTokensOf;
    assert TokensOfOne(option) + rest[..at] == args[..n + at];
    assert AreTokensOf(args[..n + at], [option] + options);
  }

  lemma ValueSkipped(args: seq<string>)
    requires args != [] && TakesValue(args[0])
    ensures GitSubcommand(args) == if |args| >= 2 then GitSubcommand(args[2..]) else ("", [])
  {
  }

  lemma OptionSkipped(args: seq<string>)
    requires args != [] && "-" <= args[0] && !TakesValue(args[0])
    ensures GitSubcommand(args) == GitSubcommand(args[1..])
  {
  }

  lemma SubcommandFirst(args: seq<string>)
    requires args != [] && !("-" <= args[0])
    ensures SubcommandAt(args, 0)
  {
    assert AreTokensOf(args[..0], []);
  }

  lemma {:induction false} SubcommandExists(args: seq<string>) returns (at: nat)
    ensures SubcommandAt(args, at) || GitSubcommand(args) == ("", [])
    decreases |args|
  {
    hide SubcommandAt, TakesValue;
    at := 0;
    if args == [] {
    } else if TakesValue(args[0]) {
      ValueSkipped(args);
      if |args| >= 2 {
        var inner := SubcommandExists(args[2..]);
        at := 2 + inner;
        if SubcommandAt(args[2..], inner) {
          assert TokensOfOne(WithValue(args[0], args[1])) == args[..2];
          SubcommandBehind(args, WithValue(args[0], args[1]), inner);
        }
      }
    } else if "-" <= args[0] {
      OptionSkipped(args);
      var inner := SubcommandExists(args[1..]);
      at := 1 + inner;
      if SubcommandAt(args[1..], inner) {
        assert TokensOfOne(Alone(args[0])) == args[..1];
        SubcommandBehind(args, Alone(args[0]), inner);
      }
    } else {
      SubcommandFirst(args);
    }
  }

  lemma NoSubcommand()
    ensures CheckSubcommand("", []) == None
  {
  }

  lemma GitIs(args: seq<string>)
    ensures CheckGit(args).Some? <==> GitOffends(args)
  {
    hide SubcommandOffends, GitSubcommand, AreTokensOf, CheckSubcommand, Lower;
    if at: nat :| SubcommandAt(args, at) && SubcommandOffends(args[at], args[at + 1..]) {
      SubcommandFound(args, at);
      SubcommandIs(args[at], args[at + 1..]);
    } else {
      var at := SubcommandExists(args);
      if SubcommandAt(args, at) {
        SubcommandFound(args, at);
        SubcommandIs(args[at], args[at + 1..]);
      } else {
        NoSubcommand();
      }
    }
  }

  lemma ProbeIs(args: seq<string>)
    ensures CheckGuardProbe(args).Some? <==> ProbeOffends(args)
  {
    if i :| 0 <= i < |args| && (args[i] == "--manifest" || "--manifest=" <= args[i]) {
      assert args[i] in args;
    }
    if arg :| arg in args && (arg == "--manifest" || "--manifest=" <= arg) {
      var i :| 0 <= i < |args| && args[i] == arg;
    }
  }

  /** A checker objects exactly when the rule for its program applies. */
  lemma CheckFollowsTheRules(program: string, args: seq<string>)
    ensures Check(program, args).Some? <==> RuleApplies(program, args)
  {
    RmIs(args);
    RemoveItemIs(args);
    WindowsDeleteIs(args);
    GitIs(args);
    ProbeIs(args);
    hide RmOffends, RemoveItemOffends, WindowsDeleteOffends, GitOffends, ProbeOffends;
    hide CheckRm, CheckPowershellRemove, CheckWindowsDelete, CheckGit, CheckGuardProbe;
  }

  /** The reason given is that of the rule that applies; a recursive switch comes before the abbreviations. */
  lemma ReasonNamesItsRule(program: string, args: seq<string>)
    ensures match Check(program, args)
            case None => true
            case Some(Rm) => program == "rm"
            case Some(RemoveItem) => program != "rm" && program != "git" && RemoveItemOffends(args)
            case Some(WindowsDelete) => exists i :: 0 <= i < |args| && RecursiveSwitch(args[i])
            case Some(GuardProbe) => program == "guard_probe.py"
            case Some(NestedTooDeep) => false
            case Some(_) => program == "git" && GitOffends(args)
    ensures program in {"del", "erase", "rd", "rmdir"} && (exists i :: 0 <= i < |args| && RecursiveSwitch(args[i]))
            ==> Check(program, args) == Some(WindowsDelete)
  {
    hide RemoveItemOffends, GitOffends, RecursiveSwitch, CheckPowershellRemove, CheckGit, Contains;
    RemoveItemIs(args);
    GitIs(args);
    SwitchSomewhere(args);
    hide Lower;
    OwnReasons(args);
  }

  lemma SwitchSomewhere(args: seq<string>)
    ensures (exists arg :: arg in args && "/" <= arg && Contains(Lower(arg), "/s"))
            <==> exists i :: 0 <= i < |args| && RecursiveSwitch(args[i])
  {
    hide Contains, Lower, RecursiveSwitch;
    if i :| 0 <= i < |args| && RecursiveSwitch(args[i]) {
      SwitchIs(args[i]);
    }
    if arg :| arg in args && "/" <= arg && Contains(Lower(arg), "/s") {
      SwitchIs(arg);
      var i :| 0 <= i < |args| && args[i] == arg;
    }
  }

  lemma OwnReasons(args: seq<string>)
    ensures CheckPowershellRemove(args).Some? ==> CheckPowershellRemove(args) == Some(RemoveItem)
    ensures CheckGit(args).Some? ==> CheckGit(args).value in {GitReset, GitClean, GitPush, GitOutput}
  {
  }

  /* ---------- nested commands ---------- */

  /** The argument at `k` says that a command follows. */
  ghost predicate Introduces(program: string, args: seq<string>, k: int) {
    && 0 <= k < |args|
    && (|| (&& (program == "bash" || program == "sh" || program == "zsh" || program == "dash" || program == "ksh")
            && Cluster(args[k], "c") && k + 1 < |args|)
        || ((program == "pwsh" || program == "powershell") && Abbreviates(args[k], "-command", 2) && k + 1 < |args|)
        || (program == "cmd" && (Reads(args[k], "/c") || Reads(args[k], "/k"))))
  }

  /** The first that says so counts. */
  ghost predicate PayloadAt(program: string, args: seq<string>, k: int) {
    Introduces(program, args, k) && forall j :: 0 <= j < k ==> !Introduces(program, args, j)
  }

  /** `cmd` runs all that follows, the others the next argument. */
  ghost function PayloadText(program: string, args: seq<string>, k: int): string
    requires Introduces(program, args, k)
  {
    if program == "cmd" then Chunker.Join(args[k + 1..]) else args[k + 1]
  }

  lemma LoneFlagIs(arg: string)
    ensures HasShortFlag([arg], {'c'}) <==> Cluster(arg, "c")
  {
    ClusterIs(arg, "c", {'c'});
    assert Options([arg]) == if arg == "--" then [] else [arg];
  }

  lemma HeadIntroduces(program: string, args: seq<string>)
    requires args != []
    ensures Introduces(program, args, 0) <==>
            || (RunsNextArgument(program, args[0]) && |args| > 1)
            || (program == "cmd" && Lower(args[0]) in {"/c", "/k"})
  {
    LoneFlagIs(args[0]);
    AbbreviationIs(args[0], "-command", 2);
    LowerReads(args[0], "/c");
    LowerReads(args[0], "/k");
    hide HasShortFlag, Cluster, Abbreviates, IsPowershellAbbrev, Reads, Lower;
  }

  lemma TailIntroduces(program: string, args: seq<string>, k: nat)
    requires args != []
    ensures Introduces(program, args, k + 1) <==> Introduces(program, args[1..], k)
    ensures Introduces(program, args, k + 1) ==> PayloadText(program, args, k + 1) == PayloadText(program, args[1..], k)
  {
    hide Cluster, Abbreviates, Reads;
    if k < |args[1..]| {
      assert args[1..][k + 1..] == args[k + 1 + 1..];
    }
  }

  lemma {:induction false} PayloadIs(program: string, args: seq<string>) returns (k: int)
    ensures NestedPayload(program, args).None? ==> forall j :: !Introduces(program, args, j)
    ensures NestedPayload(program, args).Some? ==>
              PayloadAt(program, args, k) && PayloadText(program, args, k) == NestedPayload(program, args).value
    decreases args
  {
    k := 0;
    if args != [] {
      HeadIntroduces(program, args);
      if !Introduces(program, args, 0) {
        var inner := PayloadIs(program, args[1..]);
        k := inner + 1;
        forall j: nat ensures Introduces(program, args, j + 1) <==> Introduces(program, args[1..], j) {
          TailIntroduces(program, args, j);
        }
        if NestedPayload(program, args).Some? {
          TailIntroduces(program, args, inner);
          forall j | 0 <= j < k ensures !Introduces(program, args, j) {
            if j > 0 {
              TailIntroduces(program, args, j - 1);
            }
          }
        } else {
          forall j ensures !Introduces(program, args, j) {
            if j > 0 {
              TailIntroduces(program, args, j - 1);
            }
          }
        }
      }
    }
  }

  /* ---------- the whole scan ---------- */

  ghost predicate Separates(token: string) {
    token == ";" || token == "&" || token == "&&" || token == "|" || token == "||" || token == "(" || token == ")"
  }

  /** Where the command that token `i` belongs to ends: at the next separator. */
  ghost function EndOf(tokens: seq<string>, i: nat): (e: nat)
    requires i <= |tokens|
    ensures i <= e <= |tokens|
    ensures forall j :: i <= j < e ==> !Separates(tokens[j])
    ensures e < |tokens| ==> Separates(tokens[e])
    decreases |tokens| - i
  {
    if i == |tokens| || Separates(tokens[i]) then i else EndOf(tokens, i + 1)
  }

  /** A program offends by its own arguments, or by the command that it is told to run. */
  ghost predicate Offends(tok: Tokenizer, program: string, args: seq<string>, depth: nat)
    requires depth <= 3
    decreases Remaining(depth), 0
  {
    || RuleApplies(program, args)
    || exists k :: PayloadAt(program, args, k) && Destructive(tok, PayloadText(program, args, k), depth + 1)
  }

  ghost predicate OffendsAt(tok: Tokenizer, tokens: seq<string>, i: int, depth: nat)
    requires depth <= 3
    decreases Remaining(depth), 1
  {
    && 0 <= i < |tokens| && !Separates(tokens[i])
    && Offends(tok, ProgramName(tokens[i]), tokens[i + 1..EndOf(tokens, i + 1)], depth)
  }

  /** Nested more than three deep, or some token, read as a program with what follows it, offends. */
  ghost predicate Destructive(tok: Tokenizer, command: string, depth: nat)
    decreases Remaining(depth), 2
  {
    depth > 3 || exists i :: OffendsAt(tok, tok(command), i, depth)
  }

  lemma SeparatesIs(token: string)
    ensures Separates(token) <==> token in SEGMENT_SEPARATORS
  {
  }

  lemma {:induction false} EndShifts(before: seq<string>, tokens: seq<string>, i: nat)
    requires i <= |tokens|
    ensures EndOf(before + tokens, |before| + i) == |before| + EndOf(tokens, i)
    decreases |tokens| - i
  {
    if i < |tokens| && !Separates(tokens[i]) {
      EndShifts(before, tokens, i + 1);
    }
  }

  /** The token at `i`, read as a program with what follows it up to the next separator, is caught. */
  ghost predicate CaughtAt(tok: Tokenizer, tokens: seq<string>, i: int, depth: nat)
    requires depth <= 3
  {
    && 0 <= i < |tokens| && !Separates(tokens[i])
    && Caught(tok, tokens[i], tokens[i + 1..EndOf(tokens, i + 1)], depth)
  }

  lemma EndOfOpen(open: seq<string>, rest: seq<string>, i: nat)
    requires i <= |open| && forall j :: 0 <= j < |open| ==> !Separates(open[j])
    requires rest != [] ==> Separates(rest[0])
    ensures EndOf(open + rest, i) == |open|
  {
    var all := open + rest;
    var e := EndOf(all, i);
    assert forall j :: 0 <= j < |open| ==> all[j] == open[j];
    if e < |open| {
      assert false;
    } else if rest != [] {
      assert all[|open|] == rest[0];
    }
  }

  /** A segment up to its end, among the tokens it stands in. */
  lemma ClosedSegment(tok: Tokenizer, open: seq<string>, rest: seq<string>, depth: nat)
    requires depth <= 3 && forall j :: 0 <= j < |open| ==> !Separates(open[j])
    requires rest != [] ==> Separates(rest[0])
    ensures SegmentReason(tok, open, depth).Some? <==> exists i :: i < |open| && CaughtAt(tok, open + rest, i, depth)
  {
    hide SegmentReason, Caught, EndOf;
    BlockedIffSomeTokenCaught(tok, open, depth);
    forall i | 0 <= i < |open|
      ensures CaughtAt(tok, open + rest, i, depth) <==> Caught(tok, open[i], open[i + 1..], depth)
    {
      EndOfOpen(open, rest, i + 1);
      assert (open + rest)[i + 1..|open|] == open[i + 1..];
    }
    if i :| 0 <= i < |open| && Caught(tok, open[i], open[i + 1..], depth) {
      assert CaughtAt(tok, open + rest, i, depth);
    }
  }

  lemma BehindSeparator(tok: Tokenizer, before: seq<string>, rest: seq<string>, i: int, depth: nat)
    requires depth <= 3 && 0 <= i
    ensures CaughtAt(tok, before + rest, |before| + i, depth) <==> CaughtAt(tok, rest, i, depth)
  {
    hide Caught;
    if i < |rest| {
      EndShifts(before, rest, i + 1);
      assert (before + rest)[|before| + i + 1..|before| + EndOf(rest, i + 1)] == rest[i + 1..EndOf(rest, i + 1)];
    }
  }

  lemma NotAtSeparator(tok: Tokenizer, tokens: seq<string>, i: nat, depth: nat)
    requires depth <= 3 && i < |tokens| && Separates(tokens[i])
    ensures !CaughtAt(tok, tokens, i, depth)
  {
  }

  lemma CaughtSomewhere(tok: Tokenizer, tokens: seq<string>, i: int, depth: nat)
    requires depth <= 3 && CaughtAt(tok, tokens, i, depth)
    ensures 0 <= i
  {
  }

  /** A separator parts the tokens that can be caught. */
  lemma AcrossSeparator(tok: Tokenizer, open: seq<string>, sep: string, rest: seq<string>, depth: nat)
    requires depth <= 3 && Separates(sep) && forall j :: 0 <= j < |open| ==> !Separates(open[j])
    ensures (exists i :: CaughtAt(tok, open + [sep] + rest, i, depth)) <==>
            SegmentReason(tok, open, depth).Some? || exists i :: CaughtAt(tok, rest, i, depth)
  {
    hide CaughtAt, SegmentReason, Separates;
    var all, front := open + [sep] + rest, open + [sep];
    ClosedSegment(tok, open, [sep] + rest, depth);
    assert open + ([sep] + rest) == all;
    NotAtSeparator(tok, all, |open|, depth);
    if i :| CaughtAt(tok, rest, i, depth) {
      CaughtSomewhere(tok, rest, i, depth);
      BehindSeparator(tok, front, rest, i, depth);
      assert CaughtAt(tok, all, |front| + i, depth);
    }
    if i :| i > |open| && CaughtAt(tok, all, i, depth) {
      BehindSeparator(tok, front, rest, i - |front|, depth);
      assert CaughtAt(tok, rest, i - |front|, depth);
    }
  }

  lemma OneSegment(tok: Tokenizer, open: seq<string>, depth: nat)
    requires depth <= 3
    ensures FirstReason(tok, if open == [] then [] else [open], depth).Some? <==> SegmentReason(tok, open, depth).Some?
  {
  }

  /** `open` is the beginning of a segment that goes on into `tokens`. */
  lemma {:induction false} SegmentsCatch(tok: Tokenizer, tokens: seq<string>, open: seq<string>, depth: nat)
    requires depth <= 3 && forall i :: 0 <= i < |open| ==> !Separates(open[i])
    ensures FirstReason(tok, Segments(tokens, open), depth).Some? <==> exists i :: CaughtAt(tok, open + tokens, i, depth)
    decreases tokens
  {
    OneSegment(tok, open, depth);
    hide FirstReason, SegmentReason, Caught;
    if tokens == [] {
      assert open + tokens == open;
      ClosedSegment(tok, open, [], depth);
      assert open + [] == open;
    } else {
      SeparatesIs(tokens[0]);
      hide CaughtAt;
      if Separates(tokens[0]) {
        assert open + tokens == open + [tokens[0]] + tokens[1..];
        AcrossSeparator(tok, open, tokens[0], tokens[1..], depth);
        SegmentsCatch(tok, tokens[1..], [], depth);
        assert [] + tokens[1..] == tokens[1..];
        FirstReasonAppend(tok, if open == [] then [] else [open], Segments(tokens[1..], []), depth);
      } else {
        assert (open + [tokens[0]]) + tokens[1..] == open + tokens;
        SegmentsCatch(tok, tokens[1..], open + [tokens[0]], depth);
      }
    }
  }

  lemma {:induction false} CaughtIffOffends(tok: Tokenizer, token: string, args: seq<string>, depth: nat)
    requires depth <= 3
    ensures Caught(tok, token, args, depth) <==> Offends(tok, ProgramName(token), args, depth)
    decreases Remaining(depth), 0
  {
    var program := ProgramName(token);
    CheckFollowsTheRules(program, args);
    var k := PayloadIs(program, args);
    hide RuleApplies, Check, Introduces, NestedPayload, DestructiveReason, Destructive, ProgramName;
    if NestedPayload(program, args).Some? {
      assert PayloadAt(program, args, k);
      forall j | PayloadAt(program, args, j) ensures j == k {
        FirstIsOne(program, args, j, k);
      }
      BlockedIffDestructive(tok, PayloadText(program, args, k), depth + 1);
    }
  }

  lemma FirstIsOne(program: string, args: seq<string>, j: int, k: int)
    requires PayloadAt(program, args, j) && PayloadAt(program, args, k)
    ensures j == k
  {
    assert Introduces(program, args, j) && Introduces(program, args, k);
  }

  /**
   The scanner blocks a command exactly when it is destructive: some token of it, wherever it stands in its segment and
   whatever stands before it, is a program whose arguments offend, or a shell that is told to run such a command.
   */
  lemma {:induction false} BlockedIffDestructive(tok: Tokenizer, command: string, depth: nat)
    ensures DestructiveReason(tok, command, depth).Some? <==> Destructive(tok, command, depth)
    decreases Remaining(depth), 1
  {
    if depth <= 3 {
      var tokens := tok(command);
      SegmentsCatch(tok, tokens, [], depth);
      assert [] + tokens == tokens;
      hide FirstReason, Segments, EndOf, Offends, Caught;
      forall i ensures CaughtAt(tok, tokens, i, depth) <==> OffendsAt(tok, tokens, i, depth) {
        if 0 <= i < |tokens| {
          CaughtIffOffends(tok, tokens[i], tokens[i + 1..EndOf(tokens, i + 1)], depth);
        }
      }
    }
  }

  /* ---------- program names ---------- */

  ghost predicate Quotes(s: string) {
    forall i :: 0 <= i < |s| ==> s[i] == '"' || s[i] == '\'' || s[i] == '\\'
  }

  ghost predicate Plain(s: string) {
    forall i :: 0 <= i < |s| ==> s[i] != '"' && s[i] != '\'' && s[i] != '\\' && s[i] != '/'
  }

  ghost predicate PathPrefix(path: string) {
    path == "" || path[|path| - 1] == '/' || path[|path| - 1] == '\\'
  }

  /** `name` in any case, with or without `.exe`. */
  ghost predicate FileNameOf(file: string, program: string) {
    || Reads(file, program)
    || (|file| >= 4 && Reads(file[..|file| - 4], program) && Reads(file[|file| - 4..], ".exe"))
  }

  lemma {:induction false} StripLeftIs(before: string, rest: string, chars: set<char>) returns (k: nat)
    requires rest != "" && rest[0] !in chars
    ensures k <= |before| && StripLeft(before + rest, chars) == before[k..] + rest
    ensures k < |before| ==> before[k] !in chars
  {
    if before == "" || before[0] !in chars {
      k := 0;
    } else {
      var inner := StripLeftIs(before[1..], rest, chars);
      assert (before + rest)[1..] == before[1..] + rest;
      k := inner + 1;
    }
  }

  lemma {:induction false} StripRightIs(s: string, close: string, chars: set<char>)
    requires s != "" && s[|s| - 1] !in chars && forall i :: 0 <= i < |close| ==> close[i] in chars
    ensures StripRight(s + close, chars) == s
  {
    if close == "" {
      assert s + close == s;
    } else {
      assert (s + close)[..|s + close| - 1] == s + close[..|close| - 1];
      StripRightIs(s, close[..|close| - 1], chars);
    }
  }

  lemma {:induction false} BaseNameIs(path: string, file: string)
    requires PathPrefix(path) && Plain(file)
    ensures BaseName(path + file) == file
  {
    if file != "" {
      var shorter := file[..|file| - 1];
      assert (path + file)[..|path + file| - 1] == path + shorter;
      BaseNameIs(path, shorter);
      assert shorter + [file[|file| - 1]] == file;
    }
  }

  lemma LowerParts(file: string, n: nat)
    requires n <= |file|
    ensures |Lower(file)| == |file| && Lower(file)[..n] == Lower(file[..n]) && Lower(file)[n..] == Lower(file[n..])
  {
    LowerIs(file);
    LowerIs(file[..n]);
    LowerIs(file[n..]);
  }

  lemma ExeIs(file: string, program: string)
    requires FileNameOf(file, program) && NoUpper(program)
    requires |program| >= 4 ==> program[|program| - 4..] != ".exe"
    ensures var name := Lower(file); (if EndsWith(name, ".exe") then name[..|name| - 4] else name) == program
  {
    hide Lower, Reads;
    if Reads(file, program) {
      LowerReads(file, program);
    } else {
      var n := |file| - 4;
      LowerParts(file, n);
      LowerReads(file[..n], program);
      LowerReads(file[n..], ".exe");
    }
  }

  /** A program is recognised behind quotes and backslashes, any path, in any case and with or without `.exe`. */
  lemma ProgramIsNamed(open: string, path: string, file: string, close: string, program: string)
    requires Quotes(open) && Quotes(close) && PathPrefix(path)
    requires file != "" && Plain(file) && FileNameOf(file, program) && NoUpper(program)
    requires |program| >= 4 ==> program[|program| - 4..] != ".exe"
    ensures ProgramName(open + path + file + close) == program
  {
    hide Lower, BaseName, StripLeft, StripRight, EndsWith, Reads, FileNameOf, NoUpper;
    assert open + path + file + close == (open + path) + (file + close);
    var path' := Stripped(open, path, file, close);
    BaseNameIs(path', file);
    ExeIs(file, program);
  }

  /** What is left without quotes and backslashes at the ends: the name behind some of its path. */
  lemma Stripped(open: string, path: string, file: string, close: string) returns (path': string)
    requires Quotes(open) && Quotes(close) && PathPrefix(path) && file != "" && Plain(file)
    ensures var quotes := {'"', '\'', '\\'};
            StripRight(StripLeft((open + path) + (file + close), quotes), quotes) == path' + file
    ensures PathPrefix(path')
  {
    var quotes := {'"', '\'', '\\'};
    var k := StripLeftIs(open + path, file + close, quotes);
    path' := (open + path)[k..];
    StripRightIs(path' + file, close, quotes);
    assert path' + (file + close) == path' + file + close;
  }

  /* ---------- the rules at work ---------- */

  /** The tokens from `i` up to `j` belong to one command. */
  ghost predicate Together(tokens: seq<string>, i: nat, j: nat) {
    i <= j < |tokens| && forall k :: i <= k <= j ==> !Separates(tokens[k])
  }

  lemma TogetherReaches(tokens: seq<string>, i: nat, j: nat)
    requires Together(tokens, i, j)
    ensures EndOf(tokens, i) > j
  {
    var e := EndOf(tokens, i);
    assert e < |tokens| ==> Separates(tokens[e]);
  }

  /** `rm` with a cluster holding `r`, `R` or `f`, or a long form of it, before `--`, is blocked, whatever stands around. */
  lemma ForcedRmIsBlocked(tok: Tokenizer, command: string, i: nat, j: nat, depth: nat)
    requires i < j && Together(tok(command), i, j)
    requires ProgramName(tok(command)[i]) == "rm"
    requires forall k :: i < k <= j ==> tok(command)[k] != "--"
    requires Cluster(tok(command)[j], "rRf") || tok(command)[j] == "--recursive" || tok(command)[j] == "--force"
    ensures DestructiveReason(tok, command, depth).Some?
  {
    BlockedIffDestructive(tok, command, depth);
    if depth <= 3 {
      var tokens := tok(command);
      assert Together(tokens, i + 1, j);
      TogetherReaches(tokens, i + 1, j);
      var args := tokens[i + 1..EndOf(tokens, i + 1)];
      assert args[j - i - 1] == tokens[j];
      hide Cluster, Offends, EndOf, ProgramName;
      assert OptionAt(args, j - i - 1);
      assert RmOffends(args);
      RmAlone(tok, args, depth);
      assert OffendsAt(tok, tokens, i, depth);
    }
  }

  lemma RmAlone(tok: Tokenizer, args: seq<string>, depth: nat)
    requires depth <= 3 && RmOffends(args)
    ensures Offends(tok, "rm", args, depth)
  {
  }

  lemma ShellOffends(tok: Tokenizer, program: string, args: seq<string>, at: int, depth: nat)
    requires program in {"bash", "sh", "zsh", "dash", "ksh"} && 0 <= at && at + 1 < |args| && depth <= 3
    requires Cluster(args[at], "c") && forall m :: 0 <= m < at ==> !Cluster(args[m], "c")
    requires Destructive(tok, args[at + 1], depth + 1)
    ensures Offends(tok, program, args, depth)
  {
    hide Cluster, Abbreviates, Reads, RuleApplies, Destructive;
    assert PayloadAt(program, args, at) && PayloadText(program, args, at) == args[at + 1];
  }

  /** A command that is blocked is blocked as well when a shell is told to run it with `-c`, on any level. */
  lemma NestedIsBlocked(tok: Tokenizer, command: string, i: nat, k: nat, depth: nat)
    requires i < k && Together(tok(command), i, k + 1)
    requires ProgramName(tok(command)[i]) in {"bash", "sh", "zsh", "dash", "ksh"}
    requires Cluster(tok(command)[k], "c") && forall m :: i < m < k ==> !Cluster(tok(command)[m], "c")
    requires DestructiveReason(tok, tok(command)[k + 1], depth + 1).Some?
    ensures DestructiveReason(tok, command, depth).Some?
  {
    hide Cluster, EndOf, ProgramName, Destructive, Offends, PayloadAt, PayloadText;
    BlockedIffDestructive(tok, command, depth);
    if depth <= 3 {
      var tokens := tok(command);
      BlockedIffDestructive(tok, tokens[k + 1], depth + 1);
      assert Together(tokens, i + 1, k + 1);
      TogetherReaches(tokens, i + 1, k + 1);
      var program, args := ProgramName(tokens[i]), tokens[i + 1..EndOf(tokens, i + 1)];
      var at := k - i - 1;
      assert args[at] == tokens[k] && args[at + 1] == tokens[k + 1];
      assert forall m :: 0 <= m < at ==> args[m] == tokens[m + i + 1];
      ShellOffends(tok, program, args, at, depth);
      assert OffendsAt(tok, tokens, i, depth);
      AtSomeToken(tok, command, i, depth);
    }
  }

  lemma AtSomeToken(tok: Tokenizer, command: string, i: nat, depth: nat)
    requires depth <= 3 && OffendsAt(tok, tok(command), i, depth)
    ensures Destructive(tok, command, depth)
  {
  }
}
