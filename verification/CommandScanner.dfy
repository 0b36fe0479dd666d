/**
 The token-based scanner for destructive shell commands. Tokenising is a parameter: every result holds for
 every tokeniser. Case folding is ASCII.
 */
module CommandScanner {
  import opened Common
  import Chunker

  datatype Reason =
    | Rm | RemoveItem | WindowsDelete | GitReset | GitClean | GitPush | GitOutput | GuardProbe | NestedTooDeep

  const MAX_NESTED_SHELL_DEPTH: nat := 3

  const SEGMENT_SEPARATORS: set<string> := {";", "&", "&&", "|", "||", "(", ")"}
  const GIT_GLOBAL_OPTIONS_WITH_VALUE: set<string> :=
    {"-C", "-c", "--git-dir", "--work-tree", "--namespace", "--exec-path", "--config-env"}
  const POSIX_SHELLS: set<string> := {"bash", "sh", "zsh", "dash", "ksh"}
  const POWERSHELLS: set<string> := {"pwsh", "powershell"}

  /* ---------- text helpers ---------- */

  function Lower(s: string): string {
    if s == "" then "" else [LowerChar(s[0])] + Lower(s[1..])
  }

  function StripLeft(s: string, chars: set<char>): string {
    if s != "" && s[0] in chars then StripLeft(s[1..], chars) else s
  }

  function StripRight(s: string, chars: set<char>): string {
    if s != "" && s[|s| - 1] in chars then StripRight(s[..|s| - 1], chars) else s
  }

  /** What follows the last `/` or `\`. */
  function BaseName(s: string): string {
    if s == "" then ""
    else if s[|s| - 1] == '/' || s[|s| - 1] == '\\' then ""
    else BaseName(s[..|s| - 1]) + [s[|s| - 1]]
  }

  predicate EndsWith(s: string, suffix: string) {
    |suffix| <= |s| && s[|s| - |suffix|..] == suffix
  }

  function ProgramName(token: string): string {
    var quotes := {'"', '\'', '\\'};
    var name := Lower(BaseName(StripRight(StripLeft(token, quotes), quotes)));
    if EndsWith(name, ".exe") then name[..|name| - 4] else name
  }

  predicate Contains(s: string, part: string) {
    part <= s || (s != "" && Contains(s[1..], part))
  }

  /* ---------- options ---------- */

  /** The arguments before an end-of-options marker. */
  function Options(args: seq<string>): seq<string> {
    if args == [] || args[0] == "--" then [] else [args[0]] + Options(args[1..])
  }

  predicate IsLetter(c: char) {
    'a' <= c <= 'z' || 'A' <= c <= 'Z'
  }

  /** A `-abc` cluster with one of `letters` in it. */
  predicate IsFlagWith(arg: string, letters: set<char>) {
    |arg| >= 2 && arg[0] == '-' && (forall i :: 1 <= i < |arg| ==> IsLetter(arg[i]))
    && exists i :: 1 <= i < |arg| && arg[i] in letters
  }

  predicate HasShortFlag(args: seq<string>, letters: set<char>) {
    exists arg :: arg in Options(args) && IsFlagWith(arg, letters)
  }

  predicate IsPowershellAbbrev(arg: string, parameter: string, minLen: nat) {
    minLen <= |arg| && Lower(arg) <= parameter
  }

  /* ---------- checkers ---------- */

  function CheckRm(args: seq<string>): Option<Reason> {
    var options := Options(args);
    if HasShortFlag(options, {'r', 'R', 'f'}) || "--recursive" in options || "--force" in options then Some(Rm) else None
  }

  function CheckPowershellRemove(args: seq<string>): Option<Reason> {
    if exists arg :: arg in args && (IsPowershellAbbrev(arg, "-recurse", 2) || IsPowershellAbbrev(arg, "-force", 3))
    then Some(RemoveItem) else None
  }

  function CheckWindowsDelete(args: seq<string>): Option<Reason> {
    if exists arg :: arg in args && "/" <= arg && Contains(Lower(arg), "/s") then Some(WindowsDelete)
    else CheckPowershellRemove(args)
  }

  /** Skip global options to the subcommand: `(subcommand, its arguments)`, both empty when there is none. */
  function GitSubcommand(args: seq<string>): (string, seq<string>) {
    if args == [] then ("", [])
    else if args[0] in GIT_GLOBAL_OPTIONS_WITH_VALUE then
      if |args| >= 2 then GitSubcommand(args[2..]) else ("", [])
    else if "-" <= args[0] then GitSubcommand(args[1..])
    else (Lower(args[0]), args[1..])
  }

  method FindGitSubcommand(args: seq<string>) returns (subcommand: string, rest: seq<string>)
    ensures (subcommand, rest) == GitSubcommand(args)
  {
    var index := 0;
    while index < |args|
      invariant 0 <= index
      invariant GitSubcommand(args) == if index <= |args| then GitSubcommand(args[index..]) else ("", [])
    {
      var arg := args[index];
      assert args[index..][1..] == args[index + 1..];
      if arg in GIT_GLOBAL_OPTIONS_WITH_VALUE {
        assert index + 2 <= |args| ==> args[index..][2..] == args[index + 2..];
        index := index + 2;
      } else if "-" <= arg {
        index := index + 1;
      } else {
        return Lower(arg), args[index + 1..];
      }
    }
    return "", [];
  }

  function CheckGitPush(args: seq<string>): Option<Reason> {
    var options := Options(args);
    if HasShortFlag(options, {'f'}) || (exists arg :: arg in options && "--force" <= arg) || (exists arg :: arg in args && "+" <= arg)
    then Some(GitPush) else None
  }

  function CheckGit(args: seq<string>): Option<Reason> {
    var (subcommand, rest) := GitSubcommand(args);
    CheckSubcommand(subcommand, rest)
  }

  function CheckSubcommand(subcommand: string, rest: seq<string>): Option<Reason> {
    var options := Options(rest);
    if subcommand == "reset" && "--hard" in options then Some(GitReset)
    else if subcommand == "clean" && (HasShortFlag(options, {'f'}) || "--force" in options) then Some(GitClean)
    else if subcommand == "push" then CheckGitPush(rest)
    else if subcommand in {"diff", "log", "show"} && exists arg :: arg in options && (arg == "--output" || "--output=" <= arg)
    then Some(GitOutput)
    else None
  }

  function CheckGuardProbe(args: seq<string>): Option<Reason> {
    if exists arg :: arg in args && (arg == "--manifest" || "--manifest=" <= arg) then Some(GuardProbe) else None
  }

  /** The rule for a program name, if there is one, applied to its arguments. */
  function Check(program: string, args: seq<string>): Option<Reason> {
    if program == "rm" then CheckRm(args)
    else if program in {"remove-item", "ri"} then CheckPowershellRemove(args)
    else if program in {"del", "erase", "rd", "rmdir"} then CheckWindowsDelete(args)
    else if program == "git" then CheckGit(args)
    else if program == "guard_probe.py" then CheckGuardProbe(args)
    else None
  }

  /* ---------- segments ---------- */

  /** The maximal runs of tokens between separators, empty ones dropped. */
  function Segments(tokens: seq<string>, open: seq<string>): seq<seq<string>> {
    var closed := if open == [] then [] else [open];
    if tokens == [] then closed
    else if tokens[0] in SEGMENT_SEPARATORS then closed + Segments(tokens[1..], [])
    else Segments(tokens[1..], open + [tokens[0]])
  }

  function NonEmpty(segments: seq<seq<string>>): seq<seq<string>> {
    if segments == [] then []
    else (if segments[0] == [] then [] else [segments[0]]) + NonEmpty(segments[1..])
  }

  lemma {:induction false} NonEmptyAppend(a: seq<seq<string>>, b: seq<seq<string>>)
    ensures NonEmpty(a + b) == NonEmpty(a) + NonEmpty(b)
  {
    if a == [] {
      assert a + b == b;
    } else {
      assert (a + b)[1..] == a[1..] + b;
      NonEmptyAppend(a[1..], b);
    }
  }

  method SplitSegments(tokens: seq<string>) returns (segments: seq<seq<string>>)
    ensures segments == Segments(tokens, [])
  {
    var all: seq<seq<string>> := [[]];
    for i := 0 to |tokens|
      invariant |all| > 0
      invariant NonEmpty(all[..|all| - 1]) + Segments(tokens[i..], all[|all| - 1]) == Segments(tokens, [])
    {
      var last := all[|all| - 1];
      assert tokens[i..][1..] == tokens[i + 1..];
      assert all == all[..|all| - 1] + [last];
      if tokens[i] in SEGMENT_SEPARATORS {
        NonEmptyAppend(all[..|all| - 1], [last]);
        all := all + [[]];
      } else {
        all := all[..|all| - 1] + [last + [tokens[i]]];
      }
    }
    assert all == all[..|all| - 1] + [all[|all| - 1]];
    NonEmptyAppend(all[..|all| - 1], [all[|all| - 1]]);
    segments := NonEmpty(all);
  }

  /* ---------- the recursion ---------- */

  predicate RunsNextArgument(program: string, arg: string) {
    (program in POSIX_SHELLS && HasShortFlag([arg], {'c'}))
    || (program in POWERSHELLS && IsPowershellAbbrev(arg, "-command", 2))
  }

  /** The inner command of a nested shell: the first argument that introduces one decides. */
  function NestedPayload(program: string, args: seq<string>): Option<string> {
    if args == [] then None
    else if RunsNextArgument(program, args[0]) && |args| > 1 then Some(args[1])
    else if program == "cmd" && Lower(args[0]) in {"/c", "/k"} then Some(Chunker.Join(args[1..]))
    else NestedPayload(program, args[1..])
  }

  type Tokenizer = string -> seq<string>

  function Remaining(depth: nat): nat {
    if depth > MAX_NESTED_SHELL_DEPTH then 0 else MAX_NESTED_SHELL_DEPTH + 1 - depth
  }

  function SegmentReason(tok: Tokenizer, segment: seq<string>, depth: nat): Option<Reason>
    requires depth <= MAX_NESTED_SHELL_DEPTH
    decreases Remaining(depth), 0, |segment|
  {
    if segment == [] then None
    else
      var program, args := ProgramName(segment[0]), segment[1..];
      var checked := Check(program, args);
      if checked.Some? then checked
      else
        var payload := NestedPayload(program, args);
        var nested := if payload.Some? then DestructiveReason(tok, payload.value, depth + 1) else None;
        if nested.Some? then nested else SegmentReason(tok, args, depth)
  }

  function FirstReason(tok: Tokenizer, segments: seq<seq<string>>, depth: nat): Option<Reason>
    requires depth <= MAX_NESTED_SHELL_DEPTH
    decreases Remaining(depth), 1, |segments|
  {
    if segments == [] then None
    else
      var reason := SegmentReason(tok, segments[0], depth);
      if reason.Some? then reason else FirstReason(tok, segments[1..], depth)
  }

  function DestructiveReason(tok: Tokenizer, command: string, depth: nat): Option<Reason>
    decreases Remaining(depth), 2
  {
    if depth > MAX_NESTED_SHELL_DEPTH then Some(NestedTooDeep)
    else FirstReason(tok, Segments(tok(command), []), depth)
  }

  predicate Blocked(tok: Tokenizer, tokens: seq<string>, depth: nat)
    requires depth <= MAX_NESTED_SHELL_DEPTH
  {
    FirstReason(tok, Segments(tokens, []), depth).Some?
  }

  /* ---------- structure ---------- */

  lemma {:induction false} SegmentsAtSeparator(a: seq<string>, sep: string, b: seq<string>, open: seq<string>)
    requires sep in SEGMENT_SEPARATORS
    ensures Segments(a + [sep] + b, open) == Segments(a, open) + Segments(b, [])
  {
    if a == [] {
      assert a + [sep] + b == [sep] + b;
      assert ([sep] + b)[1..] == b;
    } else {
      assert (a + [sep] + b)[1..] == a[1..] + [sep] + b;
      if a[0] in SEGMENT_SEPARATORS {
        SegmentsAtSeparator(a[1..], sep, b, []);
      } else {
        SegmentsAtSeparator(a[1..], sep, b, open + [a[0]]);
      }
    }
  }

  lemma {:induction false} FirstReasonAppend(tok: Tokenizer, a: seq<seq<string>>, b: seq<seq<string>>, depth: nat)
    requires depth <= MAX_NESTED_SHELL_DEPTH
    ensures FirstReason(tok, a + b, depth)
            == if FirstReason(tok, a, depth).Some? then FirstReason(tok, a, depth) else FirstReason(tok, b, depth)
    decreases a
  {
    if a == [] {
      assert a + b == b;
    } else {
      assert (a + b)[1..] == a[1..] + b;
      FirstReasonAppend(tok, a[1..], b, depth);
    }
  }

  /** Joining two commands with a separator is blocked exactly when one of them is: nothing hides behind an operator. */
  lemma SeparatorHidesNothing(tok: Tokenizer, a: seq<string>, sep: string, b: seq<string>, depth: nat)
    requires sep in SEGMENT_SEPARATORS && depth <= MAX_NESTED_SHELL_DEPTH
    ensures Blocked(tok, a + [sep] + b, depth) <==> Blocked(tok, a, depth) || Blocked(tok, b, depth)
  {
    SegmentsAtSeparator(a, sep, b, []);
    FirstReasonAppend(tok, Segments(a, []), Segments(b, []), depth);
  }

  /** Wrappers in front of a command (`sudo`, `env`, a path) never unblock it. */
  lemma {:induction false} PrefixNeverUnblocks(tok: Tokenizer, before: seq<string>, segment: seq<string>, depth: nat)
    requires depth <= MAX_NESTED_SHELL_DEPTH && SegmentReason(tok, segment, depth).Some?
    ensures SegmentReason(tok, before + segment, depth).Some?
    decreases before
  {
    if before == [] {
      assert before + segment == segment;
    } else {
      assert (before + segment)[1..] == before[1..] + segment;
      PrefixNeverUnblocks(tok, before[1..], segment, depth);
    }
  }

  /** `token` read as a program with the arguments `args` is caught by its rule or by its nested command. */
  predicate Caught(tok: Tokenizer, token: string, args: seq<string>, depth: nat)
    requires depth <= MAX_NESTED_SHELL_DEPTH
  {
    var program := ProgramName(token);
    Check(program, args).Some?
    || (NestedPayload(program, args).Some? && DestructiveReason(tok, NestedPayload(program, args).value, depth + 1).Some?)
  }

  /** A segment is blocked exactly when some token of it is caught, wherever it stands. */
  lemma {:induction false} BlockedIffSomeTokenCaught(tok: Tokenizer, segment: seq<string>, depth: nat)
    requires depth <= MAX_NESTED_SHELL_DEPTH
    ensures SegmentReason(tok, segment, depth).Some? <==>
            exists i :: 0 <= i < |segment| && Caught(tok, segment[i], segment[i + 1..], depth)
    decreases segment
  {
    if segment == [] {
      return;
    }
    HeadOrTail(tok, segment, depth);
    hide Caught, SegmentReason;
    if segment != [] {
      BlockedIffSomeTokenCaught(tok, segment[1..], depth);
      forall i | 0 < i < |segment|
        ensures Caught(tok, segment[i], segment[i + 1..], depth) <==> Caught(tok, segment[1..][i - 1], segment[1..][i..], depth)
      {
        assert segment[1..][i..] == segment[i + 1..];
      }
      if i :| 0 <= i < |segment[1..]| && Caught(tok, segment[1..][i], segment[1..][i + 1..], depth) {
        assert Caught(tok, segment[i + 1], segment[i + 1 + 1..], depth);
      }
      if i :| 0 < i < |segment| && Caught(tok, segment[i], segment[i + 1..], depth) {
        assert Caught(tok, segment[1..][i - 1], segment[1..][i - 1 + 1..], depth);
      }
    }
  }

  lemma HeadOrTail(tok: Tokenizer, segment: seq<string>, depth: nat)
    requires depth <= MAX_NESTED_SHELL_DEPTH && segment != []
    ensures SegmentReason(tok, segment, depth).Some? <==>
            Caught(tok, segment[0], segment[1..], depth) || SegmentReason(tok, segment[1..], depth).Some?
  {
  }

  lemma {:induction false} DeeperSegment(tok: Tokenizer, segment: seq<string>, depth: nat)
    requires depth < MAX_NESTED_SHELL_DEPTH && SegmentReason(tok, segment, depth).Some?
    ensures SegmentReason(tok, segment, depth + 1).Some?
    decreases Remaining(depth), 0, |segment|
  {
    if segment != [] {
      var program, args := ProgramName(segment[0]), segment[1..];
      var payload := NestedPayload(program, args);
      if Check(program, args).None? {
        if payload.Some? && DestructiveReason(tok, payload.value, depth + 1).Some? {
          DeeperNeverUnblocks(tok, payload.value, depth + 1);
        } else {
          DeeperSegment(tok, args, depth);
        }
      }
    }
  }

  lemma {:induction false} DeeperFirst(tok: Tokenizer, segments: seq<seq<string>>, depth: nat)
    requires depth < MAX_NESTED_SHELL_DEPTH && FirstReason(tok, segments, depth).Some?
    ensures FirstReason(tok, segments, depth + 1).Some?
    decreases Remaining(depth), 1, |segments|
  {
    if SegmentReason(tok, segments[0], depth).Some? {
      DeeperSegment(tok, segments[0], depth);
    } else {
      DeeperFirst(tok, segments[1..], depth);
    }
  }

  /** Starting deeper in the nesting never unblocks a command: the bound fails closed. */
  lemma {:induction false} DeeperNeverUnblocks(tok: Tokenizer, command: string, depth: nat)
    requires DestructiveReason(tok, command, depth).Some?
    ensures DestructiveReason(tok, command, depth + 1).Some?
    decreases Remaining(depth), 2
  {
    if depth < MAX_NESTED_SHELL_DEPTH {
      DeeperFirst(tok, Segments(tok(command), []), depth);
    }
  }

  /* ---------- git global options ---------- */

  datatype GlobalOption = WithValue(option: string, value: string) | Alone(option: string)

  predicate TakesValue(option: string) {
    option in {"-C", "-c", "--git-dir", "--work-tree", "--namespace", "--exec-path", "--config-env"}
  }

  predicate GlobalOptionOk(o: GlobalOption) {
    match o
    case WithValue(option, _) => TakesValue(option)
    case Alone(option) => "-" <= option && !TakesValue(option)
  }

  function TokensOfOne(option: GlobalOption): seq<string> {
    match option
    case WithValue(option, value) => [option, value]
    case Alone(option) => [option]
  }

  function TokensOf(options: seq<GlobalOption>): seq<string> {
    if options == [] then [] else TokensOfOne(options[0]) + TokensOf(options[1..])
  }

  /** Any well-formed run of global options is skipped and exactly the subcommand and its arguments remain. */
  lemma {:induction false} GlobalOptionsAreSkipped(options: seq<GlobalOption>, subcommand: string, rest: seq<string>)
    requires forall i :: 0 <= i < |options| ==> GlobalOptionOk(options[i])
    requires !("-" <= subcommand) && subcommand !in GIT_GLOBAL_OPTIONS_WITH_VALUE
    ensures GitSubcommand(TokensOf(options) + [subcommand] + rest) == (Lower(subcommand), rest)
  {
    if options == [] {
      assert TokensOf(options) + [subcommand] + rest == [subcommand] + rest;
      assert ([subcommand] + rest)[1..] == rest;
    } else {
      GlobalOptionsAreSkipped(options[1..], subcommand, rest);
      var tail := TokensOf(options[1..]) + [subcommand] + rest;
      OneOptionSkipped(options[0], tail);
      assert TokensOf(options) + [subcommand] + rest == TokensOfOne(options[0]) + tail;
    }
  }

  lemma OneOptionSkipped(option: GlobalOption, tail: seq<string>)
    requires GlobalOptionOk(option)
    ensures GitSubcommand(TokensOfOne(option) + tail) == GitSubcommand(tail)
  {
    var args := TokensOfOne(option) + tail;
    assert args[|TokensOfOne(option)|..] == tail;
  }

  /** So a rule on a subcommand applies however many global options stand before it. */
  lemma GlobalOptionsDoNotHide(options: seq<GlobalOption>, subcommand: string, rest: seq<string>)
    requires forall i :: 0 <= i < |options| ==> GlobalOptionOk(options[i])
    requires !("-" <= subcommand) && subcommand !in GIT_GLOBAL_OPTIONS_WITH_VALUE
    ensures CheckGit(TokensOf(options) + [subcommand] + rest) == CheckGit([subcommand] + rest)
  {
    GlobalOptionsAreSkipped(options, subcommand, rest);
    GlobalOptionsAreSkipped([], subcommand, rest);
    assert TokensOf([]) + [subcommand] + rest == [subcommand] + rest;
  }

  /* ---------- the order of options does not matter ---------- */

  lemma {:induction false} OptionsWithoutMarker(args: seq<string>)
    requires "--" !in args
    ensures Options(args) == args
  {
    if args != [] {
      OptionsWithoutMarker(args[1..]);
    }
  }

  /** Reordering the arguments of `rm` never changes the verdict. */
  lemma RmIgnoresOrder(args: seq<string>, args': seq<string>)
    requires multiset(args) == multiset(args') && "--" !in args
    ensures CheckRm(args) == CheckRm(args')
  {
    assert forall arg :: arg in args <==> arg in multiset(args);
    assert forall arg :: arg in args' <==> arg in multiset(args');
    OptionsWithoutMarker(args);
    OptionsWithoutMarker(args');
  }

  /** Operands after an end-of-options marker cannot make `rm` destructive. */
  lemma {:induction false} RmIgnoresOperands(args: seq<string>, operands: seq<string>)
    ensures CheckRm(args + ["--"] + operands) == CheckRm(args)
  {
    OptionsStopAtMarker(args, operands);
  }

  lemma {:induction false} OptionsStopAtMarker(args: seq<string>, operands: seq<string>)
    ensures Options(args + ["--"] + operands) == Options(args)
  {
    var all := args + ["--"] + operands;
    if args == [] {
      assert all[0] == "--";
    } else {
      assert all[1..] == args[1..] + ["--"] + operands;
      OptionsStopAtMarker(args[1..], operands);
    }
  }
}
