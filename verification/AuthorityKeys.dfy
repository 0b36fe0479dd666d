/** The key normaliser and the spellings it unifies. Character classes are ASCII. */
module AuthorityKeys {
  import opened Common
  import Chunker

  predicate IsUpper(c: char) {
    'A' <= c <= 'Z'
  }

  predicate IsLowerLetter(c: char) {
    'a' <= c <= 'z'
  }

  predicate IsLowerOrDigit(c: char) {
    IsLowerLetter(c) || '0' <= c <= '9'
  }

  function UpperChar(c: char): char {
    if IsLowerLetter(c) then (c as int - 32) as char else c
  }

  /* ---------- the stages of normalising ---------- */

  function Trim(s: string): string {
    if s != "" && Chunker.IsSpace(s[0]) then Trim(s[1..])
    else if s != "" && Chunker.IsSpace(s[|s| - 1]) then Trim(s[..|s| - 1])
    else s
  }

  /** `([a-z0-9])([A-Z])` becomes `\1_\2`. */
  function SplitLowerUpper(s: string): string {
    if |s| < 2 then s
    else [s[0]] + (if IsLowerOrDigit(s[0]) && IsUpper(s[1]) then "_" else "") + SplitLowerUpper(s[1..])
  }

  /** `([A-Z]+)([A-Z][a-z])` becomes `\1_\2`: a run of capitals is cut before the one that starts a word. */
  function SplitAcronym(s: string): string {
    if |s| < 3 then s
    else [s[0]] + (if IsUpper(s[0]) && IsUpper(s[1]) && IsLowerLetter(s[2]) then "_" else "") + SplitAcronym(s[1..])
  }

  /** Lower case, and `-` and space to `_`. */
  function Fold(s: string): string {
    if s == "" then ""
    else [if s[0] == '-' || s[0] == ' ' then '_' else LowerChar(s[0])] + Fold(s[1..])
  }

  /** Runs of underscores become one. */
  function Collapse(s: string): string {
    if s == "" then ""
    else if |s| >= 2 && s[0] == '_' && s[1] == '_' then Collapse(s[1..])
    else [s[0]] + Collapse(s[1..])
  }

  function StripUnderscores(s: string): string {
    if s != "" && s[0] == '_' then StripUnderscores(s[1..])
    else if s != "" && s[|s| - 1] == '_' then StripUnderscores(s[..|s| - 1])
    else s
  }

  function NormaliseKey(key: string): string {
    StripUnderscores(Collapse(Fold(SplitAcronym(SplitLowerUpper(Trim(key))))))
  }

  /* ---------- the collapsing loop ---------- */

  predicate HasPair(s: string) {
    |s| >= 2 && ((s[0] == '_' && s[1] == '_') || HasPair(s[1..]))
  }

  /** One pass of `replace("__", "_")`. */
  function ReplacePairs(s: string): string {
    if |s| >= 2 && s[0] == '_' && s[1] == '_' then "_" + ReplacePairs(s[2..])
    else if s == "" then ""
    else [s[0]] + ReplacePairs(s[1..])
  }

  lemma {:induction false} CollapseAfterUnderscore(s: string)
    ensures Collapse("_" + s) == if s != "" && s[0] == '_' then Collapse(s) else "_" + Collapse(s)
  {
    assert ("_" + s)[1..] == s;
  }

  lemma {:induction false} ReplaceKeepsCollapse(s: string)
    ensures Collapse(ReplacePairs(s)) == Collapse(s)
    ensures |ReplacePairs(s)| <= |s| && (HasPair(s) ==> |ReplacePairs(s)| < |s|)
    ensures s != "" ==> ReplacePairs(s) != "" && ReplacePairs(s)[0] == s[0]
    decreases |s|
  {
    if |s| >= 2 && s[0] == '_' && s[1] == '_' {
      ReplaceKeepsCollapse(s[2..]);
      CollapseAfterUnderscore(ReplacePairs(s[2..]));
      CollapseAfterUnderscore(s[2..]);
      assert s[1..] == "_" + s[2..];
    } else if s != "" {
      ReplaceKeepsCollapse(s[1..]);
      var r := ReplacePairs(s);
      assert r[1..] == ReplacePairs(s[1..]);
    }
  }

  lemma {:induction false} CollapseWithoutPairs(s: string)
    requires !HasPair(s)
    ensures Collapse(s) == s
  {
    if s != "" {
      CollapseWithoutPairs(s[1..]);
    }
  }

  method CollapseLoop(s: string) returns (r: string)
    ensures r == Collapse(s)
  {
    r := s;
    while HasPair(r)
      invariant Collapse(r) == Collapse(s)
      decreases |r|
    {
      ReplaceKeepsCollapse(r);
      r := ReplacePairs(r);
    }
    CollapseWithoutPairs(r);
  }

  method Normalise(key: string) returns (r: string)
    ensures r == NormaliseKey(key) && Canonical(r)
  {
    NormalisedIsCanonical(key);
    r := Trim(key);
    r := SplitLowerUpper(r);
    r := SplitAcronym(r);
    r := Fold(r);
    r := CollapseLoop(r);
    r := StripUnderscores(r);
  }

  /* ---------- what every normalised key looks like ---------- */

  predicate FoldedChar(c: char) {
    !IsUpper(c) && c != '-' && c != ' '
  }

  predicate AllFolded(s: string) {
    forall i :: 0 <= i < |s| ==> FoldedChar(s[i])
  }

  /** No capitals, no `-` and no space, no two underscores in a row and none at either end. */
  predicate Canonical(s: string) {
    AllFolded(s) && !HasPair(s) && (s != "" ==> s[0] != '_' && s[|s| - 1] != '_')
  }

  lemma {:induction false} FoldIsFolded(s: string)
    ensures AllFolded(Fold(s)) && |Fold(s)| == |s|
  {
    if s != "" {
      FoldIsFolded(s[1..]);
    }
  }

  lemma {:induction false} FoldedUnchanged(s: string)
    requires AllFolded(s)
    ensures SplitCamel(s) == s && Fold(s) == s
  {
    if s != "" {
      FoldedUnchanged(s[1..]);
    }
  }

  lemma {:induction false} CollapseIsSingle(s: string)
    ensures !HasPair(Collapse(s)) && |Collapse(s)| <= |s|
    ensures AllFolded(s) ==> AllFolded(Collapse(s))
    ensures s != "" ==> Collapse(s) != "" && Collapse(s)[0] == s[0]
  {
    if s != "" {
      CollapseIsSingle(s[1..]);
      if !(|s| >= 2 && s[0] == '_' && s[1] == '_') {
        assert Collapse(s)[1..] == Collapse(s[1..]);
      }
    }
  }

  lemma {:induction false} InnerPair(s: string, n: nat)
    requires n <= |s| && !HasPair(s)
    ensures !HasPair(s[..n])
  {
    if n >= 2 {
      assert s[..n][1..] == s[1..][..n - 1];
      InnerPair(s[1..], n - 1);
    }
  }

  lemma {:induction false} StripIsCanonical(s: string)
    requires AllFolded(s) && !HasPair(s)
    ensures Canonical(StripUnderscores(s)) && |StripUnderscores(s)| <= |s|
  {
    if s != "" && s[0] == '_' {
      StripIsCanonical(s[1..]);
    } else if s != "" && s[|s| - 1] == '_' {
      InnerPair(s, |s| - 1);
      StripIsCanonical(s[..|s| - 1]);
    }
  }

  lemma NormalisedIsCanonical(key: string)
    ensures Canonical(NormaliseKey(key))
  {
    var folded := Fold(SplitAcronym(SplitLowerUpper(Trim(key))));
    FoldIsFolded(SplitAcronym(SplitLowerUpper(Trim(key))));
    CollapseIsSingle(folded);
    StripIsCanonical(Collapse(folded));
  }

  predicate NoSpaceAtEnds(s: string) {
    s != "" ==> !Chunker.IsSpace(s[0]) && !Chunker.IsSpace(s[|s| - 1])
  }

  lemma {:induction false} TrimShortens(s: string)
    ensures |Trim(s)| <= |s| && (!NoSpaceAtEnds(s) ==> |Trim(s)| < |s|)
    ensures AllFolded(s) ==> AllFolded(Trim(s))
  {
    if s != "" && Chunker.IsSpace(s[0]) {
      TrimShortens(s[1..]);
    } else if s != "" && Chunker.IsSpace(s[|s| - 1]) {
      TrimShortens(s[..|s| - 1]);
    }
  }

  /**
   Normalising a key twice is normalising it once, exactly when stripping the underscores has laid bare no white space
   such as a tab: the key is trimmed first and stripped last.
   */
  lemma NormalisingTwice(key: string)
    ensures var once := NormaliseKey(key); NormaliseKey(once) == once <==> NoSpaceAtEnds(once)
  {
    var once := NormaliseKey(key);
    NormalisedIsCanonical(key);
    TrimShortens(once);
    var trimmed := Trim(once);
    SplitCamelIs(trimmed);
    FoldedUnchanged(trimmed);
    hide SplitCamel, Fold, Trim, SplitAcronym, SplitLowerUpper;
    if NoSpaceAtEnds(once) {
      TrimNothing(once);
      CollapseWithoutPairs(once);
    } else {
      CollapseIsSingle(trimmed);
      StripIsCanonical(Collapse(trimmed));
      assert |NormaliseKey(once)| < |once|;
    }
  }

  /* ---------- both regular expressions as one pass ---------- */

  /** A word ends between the first two characters of `s`. */
  predicate WordEnds(s: string) {
    |s| >= 2 && IsUpper(s[1])
    && (IsLowerOrDigit(s[0]) || (IsUpper(s[0]) && |s| >= 3 && IsLowerLetter(s[2])))
  }

  function SplitCamel(s: string): string {
    if s == "" then "" else [s[0]] + (if WordEnds(s) then "_" else "") + SplitCamel(s[1..])
  }

  lemma {:induction false} SplitLowerUpperHead(s: string)
    ensures s != "" ==> SplitLowerUpper(s) != "" && SplitLowerUpper(s)[0] == s[0]
    ensures |s| >= 2 && !(IsLowerOrDigit(s[0]) && IsUpper(s[1])) ==>
              |SplitLowerUpper(s)| >= 2 && SplitLowerUpper(s)[1] == s[1] && SplitLowerUpper(s)[1..] == SplitLowerUpper(s[1..])
    ensures |s| < 2 ==> SplitLowerUpper(s) == s
  {
    if |s| >= 2 {
      SplitLowerUpperHead(s[1..]);
    }
  }

  lemma {:induction false} SplitCamelIs(s: string)
    ensures SplitAcronym(SplitLowerUpper(s)) == SplitCamel(s)
  {
    if |s| >= 2 {
      SplitCamelIs(s[1..]);
      if IsLowerOrDigit(s[0]) && IsUpper(s[1]) {
        CutAtCapital(s);
      } else {
        CutInRun(s);
      }
    }
  }

  /** Where the first expression cuts, the second does not interfere. */
  lemma CutAtCapital(s: string)
    requires |s| >= 2 && IsLowerOrDigit(s[0]) && IsUpper(s[1])
    requires SplitAcronym(SplitLowerUpper(s[1..])) == SplitCamel(s[1..])
    ensures SplitAcronym(SplitLowerUpper(s)) == SplitCamel(s)
  {
    var tail, end := SplitLowerUpper(s[1..]), SplitCamel(s[1..]);
    assert SplitLowerUpper(s) == [s[0]] + "_" + tail;
    assert SplitCamel(s) == [s[0]] + "_" + end;
    hide SplitLowerUpper, SplitCamel, SplitAcronym;
    Assoc([s[0]], "_", tail);
    Assoc([s[0]], "_", end);
    AcronymKeeps(s[0], "_" + tail);
    AcronymKeeps('_', tail);
  }

  lemma Assoc(a: string, b: string, c: string)
    ensures a + b + c == a + (b + c)
  {
  }

  /** Where it does not, the second one sees the characters of the key itself. */
  lemma CutInRun(s: string)
    requires |s| >= 2 && !(IsLowerOrDigit(s[0]) && IsUpper(s[1]))
    requires SplitAcronym(SplitLowerUpper(s[1..])) == SplitCamel(s[1..])
    ensures SplitAcronym(SplitLowerUpper(s)) == SplitCamel(s)
  {
    var tail := SplitLowerUpper(s[1..]);
    SplitLowerUpperHead(s);
    SplitLowerUpperHead(s[1..]);
    assert SplitLowerUpper(s) == [s[0]] + tail;
    assert SplitCamel(s) == [s[0]] + (if WordEnds(s) then "_" else "") + SplitCamel(s[1..]);
    hide SplitLowerUpper, SplitCamel;
    assert ([s[0]] + tail)[1..] == tail;
    if |tail| >= 2 {
      assert ([s[0]] + tail)[2] == tail[1];
    }
  }

  lemma AcronymKeeps(c: char, s: string)
    requires !IsUpper(c)
    ensures SplitAcronym([c] + s) == [c] + SplitAcronym(s)
  {
    assert ([c] + s)[1..] == s;
  }

  /* ---------- normal forms ---------- */

  predicate PlainChar(c: char) {
    IsLowerOrDigit(c) || c == '_'
  }

  /** Lower case letters, digits and single underscores, none of them at either end. */
  predicate NormalForm(s: string) {
    && (forall i :: 0 <= i < |s| ==> PlainChar(s[i]))
    && !HasPair(s)
    && (s != "" ==> s[0] != '_' && s[|s| - 1] != '_')
  }

  lemma {:induction false} PlainUnchanged(s: string)
    requires forall i :: 0 <= i < |s| ==> PlainChar(s[i])
    ensures SplitCamel(s) == s && Fold(s) == s
  {
    if s != "" {
      PlainUnchanged(s[1..]);
    }
  }

  /** A key in normal form normalises to itself. */
  lemma NormalFormIsFixed(s: string)
    requires NormalForm(s)
    ensures NormaliseKey(s) == s
  {
    assert NoSpaceAtEnds(s) by {
      assert s != "" ==> PlainChar(s[0]) && PlainChar(s[|s| - 1]);
    }
    PlainUnchanged(s);
    hide Trim, SplitCamel, Fold;
    TrimNothing(s);
    NormaliseIs(s, s);
  }

  /* ---------- the spellings of one key ---------- */

  predicate IsKeyWord(w: string) {
    w != "" && IsLowerLetter(w[0]) && forall i :: 0 <= i < |w| ==> IsLowerOrDigit(w[i])
  }

  predicate AreKeyWords(words: seq<string>) {
    forall i :: 0 <= i < |words| ==> IsKeyWord(words[i])
  }

  /** `kebab-case`, `spaced words` or `snake_case`, by separator. */
  function Joined(words: seq<string>, sep: char): string {
    if words == [] then "" else if |words| == 1 then words[0] else words[0] + [sep] + Joined(words[1..], sep)
  }

  function Capitalise(w: string): string {
    if w == "" then "" else [UpperChar(w[0])] + w[1..]
  }

  function Capitalised(words: seq<string>): string {
    if words == [] then "" else Capitalise(words[0]) + Capitalised(words[1..])
  }

  function Camel(words: seq<string>): string {
    if words == [] then "" else words[0] + Capitalised(words[1..])
  }

  /** In camelCase the boundary after a capitalised `w` shows: `w` has more than its capital, or the next word does. */
  predicate BoundaryShows(w: string, next: string) {
    |w| >= 2 || (|next| >= 2 && IsLowerLetter(next[1]))
  }

  /** The capitalised words joined where their boundaries show. */
  function Glue(words: seq<string>): string {
    if words == [] then ""
    else if |words| == 1 then words[0]
    else words[0] + (if BoundaryShows(words[0], words[1]) then "_" else "") + Glue(words[1..])
  }

  function CamelGlue(words: seq<string>): string {
    if |words| <= 1 then Camel(words) else words[0] + "_" + Glue(words[1..])
  }

  lemma {:induction false} FoldAppend(a: string, b: string)
    ensures Fold(a + b) == Fold(a) + Fold(b)
  {
    if a == "" {
      assert a + b == b;
    } else {
      assert (a + b)[1..] == a[1..] + b;
      FoldAppend(a[1..], b);
    }
  }

  lemma {:induction false} FoldWord(w: string)
    requires forall i :: 0 <= i < |w| ==> IsLowerOrDigit(w[i])
    ensures Fold(w) == w
  {
    if w != "" {
      FoldWord(w[1..]);
    }
  }

  lemma {:induction false} SplitCamelRun(p: string, rest: string)
    requires p != "" && forall i :: 0 <= i < |p| ==> IsLowerOrDigit(p[i])
    ensures SplitCamel(p + rest) == p + (if rest != "" && IsUpper(rest[0]) then "_" else "") + SplitCamel(rest)
  {
    assert (p + rest)[1..] == p[1..] + rest;
    if |p| > 1 {
      assert (p + rest)[1] == p[1];
      SplitCamelRun(p[1..], rest);
      assert p == [p[0]] + p[1..];
    } else {
      assert p[1..] + rest == rest;
      assert p == [p[0]];
    }
  }

  lemma CapitalisedHead(words: seq<string>)
    requires AreKeyWords(words) && words != []
    ensures Capitalised(words) != "" && IsUpper(Capitalised(words)[0])
    ensures |words[0]| >= 2 ==> |Capitalised(words)| >= 2 && Capitalised(words)[1] == words[0][1]
    ensures |words[0]| == 1 && |Capitalised(words)| >= 2 ==> IsUpper(Capitalised(words)[1])
  {
    if |words[0]| == 1 && |words| > 1 {
      assert IsKeyWord(words[1]);
      assert Capitalised(words[1..]) != "" && Capitalised(words[1..])[0] == UpperChar(words[1][0]);
    }
  }

  lemma FoldThree(a: string, b: string, c: string)
    ensures Fold(a + b + c) == Fold(a) + Fold(b) + Fold(c)
  {
    FoldAppend(a + b, c);
    FoldAppend(a, b);
  }

  lemma SplitCamelCons(c: char, s: string)
    ensures SplitCamel([c] + s) == [c] + (if WordEnds([c] + s) then "_" else "") + SplitCamel(s)
  {
    assert ([c] + s)[1..] == s;
  }

  lemma FoldCons(c: char, s: string)
    ensures Fold([c] + s) == [if c == '-' || c == ' ' then '_' else LowerChar(c)] + Fold(s)
  {
    assert ([c] + s)[1..] == s;
  }

  /** A capitalised word of two or more characters is always cut off from what follows. */
  lemma LongWord(w: string, rest: string)
    requires IsKeyWord(w) && |w| >= 2 && (rest != "" ==> IsUpper(rest[0]))
    ensures Fold(SplitCamel(Capitalise(w) + rest)) == w + (if rest != "" then "_" else "") + Fold(SplitCamel(rest))
  {
    var sep := if rest != "" then "_" else "";
    CapitalSplits(UpperChar(w[0]), w[1..], rest);
    Assoc([UpperChar(w[0])], w[1..], rest);
    FoldSeparator();
    FoldCapitalised(w);
    hide Fold, SplitCamel, IsKeyWord;
    FoldThree(Capitalise(w), sep, SplitCamel(rest));
  }

  lemma FoldCapitalised(w: string)
    requires IsKeyWord(w)
    ensures Fold(Capitalise(w)) == w
  {
    FoldCons(UpperChar(w[0]), w[1..]);
    FoldWord(w[1..]);
    assert w == [w[0]] + w[1..];
  }

  lemma FoldSeparator()
    ensures Fold("_") == "_" && Fold("") == "" && Fold("-") == "_" && Fold(" ") == "_"
  {
    assert "_"[1..] == "" && "-"[1..] == "" && " "[1..] == "";
  }

  lemma CapitalSplits(first: char, tail: string, rest: string)
    requires IsUpper(first) && IsRun(tail) && (rest != "" ==> IsUpper(rest[0]))
    ensures SplitCamel([first] + (tail + rest)) == [first] + tail + (if rest != "" then "_" else "") + SplitCamel(rest)
  {
    SplitCamelCons(first, tail + rest);
    SplitCamelRun(tail, rest);
    hide SplitCamel;
    assert !WordEnds([first] + (tail + rest));
  }

  /** A capital standing alone is cut off only where the next word visibly starts. */
  lemma ShortWord(w: string, rest: string)
    requires IsKeyWord(w) && |w| == 1
    ensures Fold(SplitCamel(Capitalise(w) + rest))
            == w + (if WordEnds(Capitalise(w) + rest) then "_" else "") + Fold(SplitCamel(rest))
  {
    var all := Capitalise(w) + rest;
    var sep := if WordEnds(all) then "_" else "";
    assert all[1..] == rest;
    assert SplitCamel(all) == [all[0]] + sep + SplitCamel(rest);
    FoldThree([all[0]], sep, SplitCamel(rest));
    assert Fold([all[0]]) == [w[0]] && w == [w[0]];
  }

  /** Splitting and folding the capitalised words gives them back, joined where their boundaries show. */
  lemma {:induction false} CapitalisedGlue(words: seq<string>)
    requires AreKeyWords(words)
    ensures Fold(SplitCamel(Capitalised(words))) == Glue(words)
  {
    if words != [] {
      var w, rest := words[0], Capitalised(words[1..]);
      CapitalisedGlue(words[1..]);
      if |words| > 1 {
        CapitalisedHead(words[1..]);
      }
      if |w| >= 2 {
        LongWord(w, rest);
      } else {
        ShortWord(w, rest);
      }
    }
  }

  /** A word put in front of a normal form, with or without an underscore, is a normal form. */
  lemma {:induction false} WordInFront(w: string, rest: string)
    requires IsRun(w) && NormalForm(rest)
    ensures NormalForm(w + rest) && (rest != "" ==> NormalForm(w + "_" + rest))
  {
    if |w| == 1 {
      assert (w + rest)[1..] == rest;
      assert (w + "_" + rest)[1..] == "_" + rest;
      assert ("_" + rest)[1..] == rest;
    } else {
      assert (w + rest)[1..] == w[1..] + rest;
      assert (w + "_" + rest)[1..] == w[1..] + "_" + rest;
      WordInFront(w[1..], rest);
    }
  }

  predicate IsRun(w: string) {
    w != "" && forall i :: 0 <= i < |w| ==> IsLowerOrDigit(w[i])
  }

  lemma {:induction false} GlueIsNormal(words: seq<string>)
    requires AreKeyWords(words)
    ensures NormalForm(Glue(words)) && NormalForm(Joined(words, '_'))
    ensures words != [] ==> Glue(words) != "" && Joined(words, '_') != ""
  {
    if words != [] {
      GlueIsNormal(words[1..]);
      if |words| == 1 {
        WordInFront(words[0], "");
        assert words[0] + "" == words[0];
      } else {
        WordInFront(words[0], Glue(words[1..]));
        WordInFront(words[0], Joined(words[1..], '_'));
        assert words[0] + "" + Glue(words[1..]) == words[0] + Glue(words[1..]);
      }
    }
  }

  lemma TrimNothing(s: string)
    requires NoSpaceAtEnds(s)
    ensures Trim(s) == s
  {
  }

  lemma {:induction false} EndsOfWords(words: seq<string>, sep: char)
    requires AreKeyWords(words) && words != []
    ensures Joined(words, sep) != "" && IsLowerOrDigit(Joined(words, sep)[0])
    ensures IsLowerOrDigit(Joined(words, sep)[|Joined(words, sep)| - 1])
    ensures Capitalised(words) != "" && !Chunker.IsSpace(Capitalised(words)[|Capitalised(words)| - 1])
  {
    CapitalisedHead(words);
    if |words| > 1 {
      EndsOfWords(words[1..], sep);
      var c := Capitalised(words[1..]);
      assert Capitalised(words)[|Capitalised(words)| - 1] == c[|c| - 1];
    } else {
      assert Capitalised(words[1..]) == "";
    }
  }

  lemma SeparatorIsKept(w: string, sep: char, rest: string)
    requires IsRun(w) && sep in {'-', ' ', '_'}
    ensures SplitCamel(w + [sep] + rest) == w + [sep] + SplitCamel(rest)
  {
    assert w + [sep] + rest == w + ([sep] + rest);
    SplitCamelRun(w, [sep] + rest);
    SplitCamelCons(sep, rest);
    hide SplitCamel;
    assert !WordEnds([sep] + rest) && !IsUpper(([sep] + rest)[0]);
  }

  lemma SeparatorFolds(w: string, sep: char, rest: string)
    requires IsRun(w) && sep in {'-', ' ', '_'}
    ensures Fold(w + [sep] + rest) == w + ['_'] + Fold(rest)
  {
    FoldSeparator();
    hide Fold;
    FoldThree(w, [sep], rest);
    FoldWord(w);
  }

  lemma {:induction false} JoinedFolds(words: seq<string>, sep: char)
    requires AreKeyWords(words) && sep in {'-', ' ', '_'}
    ensures SplitCamel(Joined(words, sep)) == Joined(words, sep)
    ensures Fold(Joined(words, sep)) == Joined(words, '_')
  {
    if |words| == 1 {
      SplitCamelRun(words[0], "");
      assert words[0] + "" == words[0];
      FoldWord(words[0]);
    } else if words != [] {
      JoinedFolds(words[1..], sep);
      SeparatorIsKept(words[0], sep, Joined(words[1..], sep));
      SeparatorFolds(words[0], sep, Joined(words[1..], sep));
    }
  }

  /** The kebab, spaced and snake spellings of a word list all normalise to the snake spelling. */
  lemma SeparatedSpellingsAgree(words: seq<string>, sep: char)
    requires AreKeyWords(words) && words != [] && sep in {'-', ' ', '_'}
    ensures NormaliseKey(Joined(words, sep)) == Joined(words, '_')
  {
    EndsOfWords(words, sep);
    hide SplitCamel, Fold, Trim, NormalForm, Joined;
    TrimNothing(Joined(words, sep));
    JoinedFolds(words, sep);
    GlueIsNormal(words);
    NormaliseIs(Joined(words, sep), Joined(words, '_'));
  }

  /** The camelCase spelling normalises to the words joined where camelCase shows their boundaries. */
  lemma CamelNormalises(words: seq<string>)
    requires AreKeyWords(words) && words != []
    ensures NormaliseKey(Camel(words)) == CamelGlue(words)
  {
    CamelEnds(words);
    TrimNothing(Camel(words));
    CamelFolds(words);
    CamelGlueIs(words);
    NormaliseIs(Camel(words), CamelGlue(words));
  }

  lemma CamelFolds(words: seq<string>)
    requires AreKeyWords(words) && words != []
    ensures Fold(SplitCamel(Camel(words))) == CamelGlue(words)
  {
    var w, rest := words[0], Capitalised(words[1..]);
    var sep := if rest != "" then "_" else "";
    CamelEnds(words);
    SplitCamelRun(w, rest);
    CapitalisedGlue(words[1..]);
    CamelGlueIs(words);
    FoldSeparator();
    hide Fold, SplitCamel, Glue, CamelGlue, Capitalised, NormalForm;
    FoldThree(w, sep, SplitCamel(rest));
    FoldWord(w);
  }

  /** A key with nothing to trim normalises to its split and folded form when that is a normal form. */
  lemma NormaliseIs(key: string, folded: string)
    requires Trim(key) == key && Fold(SplitCamel(key)) == folded && NormalForm(folded)
    ensures NormaliseKey(key) == folded
  {
    SplitCamelIs(key);
    hide Trim, SplitCamel, Fold, SplitAcronym, SplitLowerUpper, Collapse;
    CollapseWithoutPairs(folded);
  }

  /** The ends of the camelCase spelling are letters or digits, and something follows the first word iff there is a second. */
  lemma CamelEnds(words: seq<string>)
    requires AreKeyWords(words) && words != []
    ensures Camel(words) != "" && !Chunker.IsSpace(Camel(words)[0]) && !Chunker.IsSpace(Camel(words)[|Camel(words)| - 1])
    ensures Capitalised(words[1..]) != "" <==> |words| > 1
    ensures |words| > 1 ==> IsUpper(Capitalised(words[1..])[0])
  {
    var rest := Capitalised(words[1..]);
    if |words| > 1 {
      CapitalisedHead(words[1..]);
      EndsOfWords(words[1..], '_');
      assert Camel(words)[|Camel(words)| - 1] == rest[|rest| - 1];
    }
  }

  lemma CamelGlueIs(words: seq<string>)
    requires AreKeyWords(words) && words != []
    ensures NormalForm(CamelGlue(words))
    ensures CamelGlue(words) == words[0] + (if |words| > 1 then "_" else "") + Glue(words[1..])
  {
    GlueIsNormal(words[1..]);
    WordInFront(words[0], Glue(words[1..]));
    assert words[0] + "" + "" == words[0] + "" == words[0];
  }

  /** Every boundary between capitalised words shows. */
  predicate CamelShowsAll(words: seq<string>) {
    forall i, j :: 1 <= i && j == i + 1 < |words| ==> BoundaryShows(words[i], words[j])
  }

  lemma {:induction false} GlueLength(words: seq<string>)
    requires AreKeyWords(words)
    ensures |Glue(words)| <= |Joined(words, '_')|
    ensures |Glue(words)| == |Joined(words, '_')| <==>
            forall i, j :: 0 <= i && j == i + 1 < |words| ==> BoundaryShows(words[i], words[j])
    ensures |Glue(words)| == |Joined(words, '_')| ==> Glue(words) == Joined(words, '_')
  {
    if |words| > 1 {
      var rest := words[1..];
      GlueLength(rest);
      assert forall i :: 0 <= i < |rest| ==> rest[i] == words[i + 1];
      assert (forall i, j :: 0 <= i && j == i + 1 < |words| ==> BoundaryShows(words[i], words[j])) <==>
             BoundaryShows(words[0], words[1]) && (forall i, j :: 0 <= i && j == i + 1 < |rest| ==> BoundaryShows(rest[i], rest[j])) by {
        if forall i, j :: 0 <= i && j == i + 1 < |words| ==> BoundaryShows(words[i], words[j]) {
          forall i, j | 0 <= i && j == i + 1 < |rest| ensures BoundaryShows(rest[i], rest[j]) {
            assert BoundaryShows(words[i + 1], words[j + 1]);
          }
        }
        if BoundaryShows(words[0], words[1]) && (forall i, j :: 0 <= i && j == i + 1 < |rest| ==> BoundaryShows(rest[i], rest[j])) {
          forall i, j | 0 <= i && j == i + 1 < |words| ensures BoundaryShows(words[i], words[j]) {
            if i > 0 {
              assert BoundaryShows(rest[i - 1], rest[j - 1]);
            }
          }
        }
      }
    }
  }

  /**
   camelCase agrees with the other spellings exactly when each of its boundaries shows; two one-letter words
   in a row after the first, say, run together.
   */
  lemma CamelAgreesExactly(words: seq<string>)
    requires AreKeyWords(words) && words != []
    ensures NormaliseKey(Camel(words)) == Joined(words, '_') <==> CamelShowsAll(words)
    ensures (forall i :: 0 <= i < |words| ==> |words[i]| >= 2) ==> NormaliseKey(Camel(words)) == Joined(words, '_')
  {
    CamelNormalises(words);
    if |words| > 1 {
      var rest := words[1..];
      GlueLength(rest);
      assert Joined(words, '_') == words[0] + "_" + Joined(rest, '_');
      forall i, j | 1 <= i && j == i + 1 < |words| ensures words[i] == rest[i - 1] && words[j] == rest[j - 1] {
      }
      if CamelShowsAll(words) {
        forall i, j | 0 <= i && j == i + 1 < |rest| ensures BoundaryShows(rest[i], rest[j]) {
          assert BoundaryShows(words[i + 1], words[j + 1]);
        }
      } else {
        var i, j :| 1 <= i && j == i + 1 < |words| && !BoundaryShows(words[i], words[j]);
        assert !BoundaryShows(rest[i - 1], rest[j - 1]);
        assert |CamelGlue(words)| < |Joined(words, '_')|;
      }
    }
  }

  /** Where camelCase hides a boundary the spellings come apart: `getAB` is taken for `get_ab`. */
  lemma CamelRunsTogether(words: seq<string>)
    requires words == ["get", "a", "b"]
    ensures AreKeyWords(words) && Camel(words) == "getAB" && Joined(words, '_') == "get_a_b"
    ensures NormaliseKey("getAB") == "get_ab" && !CamelShowsAll(words)
  {
    assert words[1..] == ["a", "b"];
    TwoShortWords();
    ThreeWords(words);
    hide NormaliseKey, Capitalised, Glue, Camel, CamelGlue, Joined;
    CamelNormalises(words);
  }

  lemma ThreeWords(words: seq<string>)
    requires |words| == 3 && words[0] == "get" && words[1..] == ["a", "b"]
    requires Capitalised(words[1..]) == "AB" && Joined(words[1..], '_') == "a_b" && Glue(words[1..]) == "ab"
    ensures AreKeyWords(words) && !CamelShowsAll(words)
    ensures Camel(words) == "getAB" && Joined(words, '_') == "get_a_b" && CamelGlue(words) == "get_ab"
  {
    hide Capitalised, Glue;
    assert words[1] == words[1..][0] == "a" && words[2] == words[1..][1] == "b";
    assert IsKeyWord("get") && IsKeyWord("a") && IsKeyWord("b");
    assert !BoundaryShows(words[1], words[2]);
  }

  lemma TwoShortWords()
    ensures IsKeyWord("a") && IsKeyWord("b")
    ensures Capitalised(["a", "b"]) == "AB" && Joined(["a", "b"], '_') == "a_b" && Glue(["a", "b"]) == "ab"
  {
    assert ["a", "b"][1..] == ["b"] && ["b"][1..] == [];
    assert Capitalise("a") == "A" && Capitalise("b") == "B";
  }

  /** PascalCase normalises to the words joined where their boundaries show, and agrees exactly when all do. */
  lemma PascalAgreesExactly(words: seq<string>)
    requires AreKeyWords(words) && words != []
    ensures NormaliseKey(Capitalised(words)) == Glue(words)
    ensures NormaliseKey(Capitalised(words)) == Joined(words, '_') <==>
            forall i, j :: 0 <= i && j == i + 1 < |words| ==> BoundaryShows(words[i], words[j])
  {
    hide NormaliseKey, SplitCamel, Fold, Trim, Glue, Joined, NormalForm, BoundaryShows;
    PascalNormalises(words);
    GlueLength(words);
  }

  lemma PascalNormalises(words: seq<string>)
    requires AreKeyWords(words) && words != []
    ensures NormaliseKey(Capitalised(words)) == Glue(words)
  {
    PascalEnds(words);
    hide NormaliseKey, SplitCamel, Fold, Trim, Capitalised, Glue, NormalForm;
    TrimNothing(Capitalised(words));
    CapitalisedGlue(words);
    GlueIsNormal(words);
    NormaliseIs(Capitalised(words), Glue(words));
  }

  lemma PascalEnds(words: seq<string>)
    requires AreKeyWords(words) && words != []
    ensures NoSpaceAtEnds(Capitalised(words))
  {
    hide Capitalised, Joined;
    EndsOfWords(words, '_');
    CapitalisedHead(words);
  }

  /* ---------- capitals throughout ---------- */

  function Upper(s: string): string {
    if s == "" then "" else [UpperChar(s[0])] + Upper(s[1..])
  }

  predicate IsDigit(c: char) {
    '0' <= c <= '9'
  }

  /** A digit directly before a letter. */
  predicate DigitThenLetter(s: string) {
    |s| >= 2 && ((IsDigit(s[0]) && IsLowerLetter(s[1])) || DigitThenLetter(s[1..]))
  }

  /** An underscore between each digit and a letter after it. */
  function DigitCut(s: string): string {
    if s == "" then ""
    else [s[0]] + (if |s| >= 2 && IsDigit(s[0]) && IsLowerLetter(s[1]) then "_" else "") + DigitCut(s[1..])
  }

  predicate AllPlain(s: string) {
    forall i :: 0 <= i < |s| ==> PlainChar(s[i])
  }

  lemma {:induction false} UpperIs(s: string)
    ensures |Upper(s)| == |s| && forall i :: 0 <= i < |s| ==> Upper(s)[i] == UpperChar(s[i])
  {
    if s != "" {
      UpperIs(s[1..]);
    }
  }

  lemma {:induction false} UpperSplits(s: string)
    requires AllPlain(s)
    ensures Fold(SplitCamel(Upper(s))) == DigitCut(s)
  {
    if s != "" {
      var cut := if WordEnds(Upper(s)) then "_" else "";
      UpperSplits(s[1..]);
      UpperEnds(s);
      SplitCamelCons(UpperChar(s[0]), Upper(s[1..]));
      FoldSeparator();
      FoldOne(s[0]);
      hide SplitCamel, Fold, WordEnds;
      FoldThree([UpperChar(s[0])], cut, SplitCamel(Upper(s[1..])));
    }
  }

  lemma FoldOne(c: char)
    requires PlainChar(c)
    ensures Fold([UpperChar(c)]) == [c]
  {
    assert [UpperChar(c)][1..] == "";
  }

  /** In capitals a word ends only between a digit and a letter. */
  lemma UpperEnds(s: string)
    requires AllPlain(s)
    ensures WordEnds(Upper(s)) <==> |s| >= 2 && IsDigit(s[0]) && IsLowerLetter(s[1])
  {
    UpperIs(s);
    forall i | 0 <= i < |s|
      ensures IsUpper(Upper(s)[i]) <==> IsLowerLetter(s[i])
      ensures IsLowerOrDigit(Upper(s)[i]) <==> IsDigit(s[i])
      ensures !IsLowerLetter(Upper(s)[i])
    {
      PlainUpper(s[i]);
    }
    hide Upper, IsUpper, IsLowerOrDigit, IsLowerLetter, IsDigit;
  }

  lemma PlainUpper(c: char)
    requires PlainChar(c)
    ensures IsUpper(UpperChar(c)) <==> IsLowerLetter(c)
    ensures IsLowerOrDigit(UpperChar(c)) <==> IsDigit(c)
    ensures !IsLowerLetter(UpperChar(c))
  {
  }

  lemma {:induction false} DigitCutGrows(s: string)
    ensures |DigitCut(s)| >= |s|
    ensures DigitThenLetter(s) ==> |DigitCut(s)| > |s|
    ensures !DigitThenLetter(s) ==> DigitCut(s) == s
    ensures s != "" ==> DigitCut(s) != "" && DigitCut(s)[0] == s[0] && DigitCut(s)[|DigitCut(s)| - 1] == s[|s| - 1]
  {
    if s != "" {
      DigitCutGrows(s[1..]);
    }
  }

  lemma {:induction false} DigitCutIsPlain(s: string)
    requires AllPlain(s) && !HasPair(s)
    ensures AllPlain(DigitCut(s)) && !HasPair(DigitCut(s))
  {
    if s != "" {
      var rest := DigitCut(s[1..]);
      DigitCutIsPlain(s[1..]);
      DigitCutGrows(s[1..]);
      DigitCutCons(s);
      hide DigitCut, AllPlain, HasPair;
      PlainHead(s);
      if |s| >= 2 && IsDigit(s[0]) && IsLowerLetter(s[1]) {
        InFront('_', rest);
        InFront(s[0], "_" + rest);
      } else {
        InFront(s[0], rest);
      }
    }
  }

  lemma PlainHead(s: string)
    requires AllPlain(s) && !HasPair(s) && s != ""
    ensures PlainChar(s[0]) && (|s| >= 2 ==> s[0] != '_' || s[1] != '_')
  {
  }

  lemma DigitCutCons(s: string)
    requires s != ""
    ensures DigitCut(s) == if |s| >= 2 && IsDigit(s[0]) && IsLowerLetter(s[1])
                           then [s[0]] + ("_" + DigitCut(s[1..])) else [s[0]] + DigitCut(s[1..])
  {
  }

  lemma InFront(c: char, s: string)
    requires PlainChar(c) && AllPlain(s) && !HasPair(s) && (s != "" ==> c != '_' || s[0] != '_')
    ensures AllPlain([c] + s) && !HasPair([c] + s)
  {
    assert ([c] + s)[1..] == s;
  }

  /** The spelling with capitals throughout agrees exactly when no digit stands directly before a letter. */
  lemma ScreamingAgreesExactly(words: seq<string>)
    requires AreKeyWords(words) && words != []
    ensures NormaliseKey(Upper(Joined(words, '_'))) == DigitCut(Joined(words, '_'))
    ensures NormaliseKey(Upper(Joined(words, '_'))) == Joined(words, '_') <==> !DigitThenLetter(Joined(words, '_'))
  {
    GlueIsNormal(words);
    EndsOfWords(words, '_');
    hide Joined, Glue, Capitalised;
    UpperNormalises(Joined(words, '_'));
  }

  lemma UpperNormalises(key: string)
    requires NormalForm(key) && key != ""
    ensures NormaliseKey(Upper(key)) == DigitCut(key)
    ensures NormaliseKey(Upper(key)) == key <==> !DigitThenLetter(key)
  {
    UpperIs(key);
    assert PlainChar(key[0]) && PlainChar(key[|key| - 1]);
    assert NoSpaceAtEnds(Upper(key));
    hide Upper, SplitCamel, Fold, Trim;
    TrimNothing(Upper(key));
    UpperSplits(key);
    DigitCutGrows(key);
    DigitCutIsPlain(key);
    hide DigitCut, NormaliseKey;
    NormaliseIs(Upper(key), DigitCut(key));
  }
}
