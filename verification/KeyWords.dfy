/** What the key normaliser makes of any key: its words, in lower case, joined with single underscores. */
module KeyWords {
  import opened Common
  import opened AuthorityKeys
  import Chunker

  /* ---------- the words of a key ---------- */

  predicate Separator(c: char) {
    c == '_' || c == '-' || c == ' '
  }

  /**
   A word ends between the first character of `s` and the second: a capital follows a small letter or a digit, or it
   ends a run of capitals because a small letter follows it.
   */
  predicate EndsWord(s: string) {
    && |s| >= 2 && 'A' <= s[1] <= 'Z'
    && (|| 'a' <= s[0] <= 'z' || '0' <= s[0] <= '9'
        || ('A' <= s[0] <= 'Z' && |s| >= 3 && 'a' <= s[2] <= 'z'))
  }

  function Small(c: char): char {
    if 'A' <= c <= 'Z' then (c as int + 32) as char else c
  }

  /** The words of `word + s`, where `word` is the one being read. */
  function Words(s: string, word: string): seq<string> {
    var read := if word == "" then [] else [word];
    if s == "" then read
    else if Separator(s[0]) then read + Words(s[1..], "")
    else if EndsWord(s) then [word + [Small(s[0])]] + Words(s[1..], "")
    else Words(s[1..], word + [Small(s[0])])
  }

  /* ---------- trimming ---------- */

  /** Trimming takes the white space off both ends and nothing else. */
  lemma {:induction false} TrimIs(key: string) returns (before: string, after: string)
    ensures key == before + Trim(key) + after
    ensures forall i :: 0 <= i < |before| ==> Chunker.IsSpace(before[i])
    ensures forall i :: 0 <= i < |after| ==> Chunker.IsSpace(after[i])
    ensures Trim(key) != "" ==> !Chunker.IsSpace(Trim(key)[0]) && !Chunker.IsSpace(Trim(key)[|Trim(key)| - 1])
    decreases |key|
  {
    before, after := "", "";
    if key != "" && Chunker.IsSpace(key[0]) {
      hide Chunker.IsSpace;
      var b, a := TrimIs(key[1..]);
      before, after := [key[0]] + b, a;
      assert [key[0]] + (b + Trim(key) + a) == before + Trim(key) + after;
    } else if key != "" && Chunker.IsSpace(key[|key| - 1]) {
      hide Chunker.IsSpace;
      var b, a := TrimIs(key[..|key| - 1]);
      before, after := b, a + [key[|key| - 1]];
      assert (b + Trim(key) + a) + [key[|key| - 1]] == before + Trim(key) + after;
    } else {
      assert key == "" + key + "";
    }
  }

  /* ---------- the words between underscores ---------- */

  /** The words between underscores of `word + s`. */
  function Between(s: string, word: string): seq<string> {
    var read := if word == "" then [] else [word];
    if s == "" then read
    else if s[0] == '_' then read + Between(s[1..], "")
    else Between(s[1..], word + [s[0]])
  }

  function Trail(s: string): string {
    if s != "" && s[|s| - 1] == '_' then "_" else ""
  }

  function Lead(s: string): string {
    if s != "" && s[0] == '_' then "_" else ""
  }

  lemma TrailTail(s: string)
    requires |s| >= 2
    ensures Trail(s[1..]) == Trail(s)
  {
  }

  lemma JoinedCons(word: string, words: seq<string>)
    ensures Joined([word] + words, '_') == if words == [] then word else word + ("_" + Joined(words, '_'))
  {
    assert ([word] + words)[1..] == words;
    assert word + ['_'] + Joined(words, '_') == word + ("_" + Joined(words, '_'));
  }

  lemma CollapseLetter(s: string)
    requires s != "" && s[0] != '_'
    ensures Collapse(s) == [s[0]] + Collapse(s[1..])
  {
  }

  lemma CollapseUnderscore(s: string)
    requires s != "" && s[0] == '_'
    ensures Collapse(s) == if s[1..] != "" && s[1] == '_' then Collapse(s[1..]) else "_" + Collapse(s[1..])
  {
    assert s == "_" + s[1..];
    CollapseAfterUnderscore(s[1..]);
  }

  lemma {:induction false} SomeWord(s: string, word: string)
    requires word != "" || (s != "" && s[0] != '_')
    ensures Between(s, word) != []
  {
    if s != "" && s[0] != '_' {
      SomeWord(s[1..], word + [s[0]]);
    }
  }

  lemma {:induction false} OnlyUnderscores(s: string)
    requires Between(s, "") == []
    ensures Lead(s) == Trail(s) && forall i :: 0 <= i < |s| ==> s[i] == '_'
  {
    if s != "" && s[0] == '_' {
      assert [] + Between(s[1..], "") == Between(s[1..], "");
      OnlyUnderscores(s[1..]);
    } else if s != "" {
      SomeWord(s, "");
    }
  }

  /** Collapsing, with a word in front. */
  lemma {:induction false} CollapseBehind(s: string, word: string)
    requires word != ""
    ensures word + Collapse(s) == Joined(Between(s, word), '_') + Trail(s)
    decreases |s|, 1
  {
    hide Collapse, Joined;
    if s == "" {
      CollapseNothing(word);
    } else if s[0] == '_' {
      CollapseIs(s);
      JoinedCons(word, Between(s[1..], ""));
      if Between(s, "") == [] {
        OnlyUnderscores(s);
      }
      var rest := Joined(Between(s[1..], ""), '_');
      assert [] + Between(s[1..], "") == Between(s[1..], "");
      assert word + ("_" + rest) + Trail(s) == word + ("_" + rest + Trail(s));
    } else {
      CollapseLetter(s);
      CollapseBehind(s[1..], word + [s[0]]);
      if |s| >= 2 {
        TrailTail(s);
      }
      assert word + ([s[0]] + Collapse(s[1..])) == word + [s[0]] + Collapse(s[1..]);
    }
  }

  lemma CollapseNothing(word: string)
    ensures Collapse("") == "" && Joined([word], '_') == word && word + "" == word
  {
  }

  /** Collapsing leaves the words, single underscores between them, and at most one at each end. */
  ghost function Ends(s: string): string {
    if Between(s, "") == [] then Lead(s) else Lead(s) + Joined(Between(s, ""), '_') + Trail(s)
  }

  lemma {:induction false} CollapseIs(s: string)
    ensures Collapse(s) == Ends(s)
    decreases |s|, 0
  {
    hide Collapse, Joined;
    if s == "" {
      CollapseNothing("");
    } else if s[0] == '_' {
      CollapseIs(s[1..]);
      CollapseUnderscore(s);
      EndsUnderscore(s);
    } else {
      CollapseLetter(s);
      CollapseBehind(s[1..], [s[0]]);
      EndsLetter(s);
    }
  }

  lemma EndsUnderscore(s: string)
    requires s != "" && s[0] == '_'
    ensures Ends(s) == if s[1..] != "" && s[1] == '_' then Ends(s[1..]) else "_" + Ends(s[1..])
  {
    hide Joined;
    assert [] + Between(s[1..], "") == Between(s[1..], "");
    if |s| >= 2 {
      TrailTail(s);
      if s[1] != '_' {
        SomeWord(s[1..], "");
        var words := Joined(Between(s[1..], ""), '_');
        assert "_" + ("" + words + Trail(s[1..])) == "_" + words + Trail(s[1..]);
      }
    }
  }

  lemma EndsLetter(s: string)
    requires s != "" && s[0] != '_'
    ensures Ends(s) == Joined(Between(s[1..], [s[0]]), '_') + Trail(s[1..])
  {
    hide Joined;
    SomeWord(s, "");
    assert "" + [s[0]] == [s[0]];
    if |s| >= 2 {
      TrailTail(s);
    }
    var words := Joined(Between(s, ""), '_');
    assert "" + words + Trail(s) == words + Trail(s);
  }

  predicate NoUnderscore(word: string) {
    word != "" && forall i :: 0 <= i < |word| ==> word[i] != '_'
  }

  lemma {:induction false} BetweenAreWords(s: string, word: string)
    requires word == "" || NoUnderscore(word)
    ensures forall i :: 0 <= i < |Between(s, word)| ==> NoUnderscore(Between(s, word)[i])
  {
    if s != "" {
      if s[0] == '_' {
        BetweenAreWords(s[1..], "");
      } else {
        BetweenAreWords(s[1..], word + [s[0]]);
      }
    }
  }

  lemma {:induction false} JoinedEnds(words: seq<string>)
    requires words != [] && forall i :: 0 <= i < |words| ==> NoUnderscore(words[i])
    ensures var j := Joined(words, '_'); j != "" && j[0] != '_' && j[|j| - 1] != '_'
  {
    assert NoUnderscore(words[0]);
    if |words| > 1 {
      JoinedEnds(words[1..]);
    }
  }

  lemma StripEnds(lead: string, j: string, trail: string)
    requires (lead == "" || lead == "_") && (trail == "" || trail == "_")
    requires j == "" || (j[0] != '_' && j[|j| - 1] != '_')
    ensures StripUnderscores(lead + j + trail) == j
  {
    var s := lead + j + trail;
    if lead == "_" {
      assert s[1..] == j + trail;
    } else {
      assert s == j + trail;
    }
    StripTrail(j, trail);
  }

  lemma StripTrail(j: string, trail: string)
    requires trail == "" || trail == "_"
    requires j == "" || (j[0] != '_' && j[|j| - 1] != '_')
    ensures StripUnderscores(j + trail) == j
  {
    if trail == "_" {
      if j == "" {
        assert (j + trail)[1..] == "";
      } else {
        assert (j + trail)[..|j + trail| - 1] == j;
      }
    } else {
      assert j + trail == j;
    }
  }

  lemma StripCollapse(s: string)
    ensures StripUnderscores(Collapse(s)) == Joined(Between(s, ""), '_')
  {
    hide Collapse, Between, StripUnderscores;
    CollapseIs(s);
    assert Collapse(s) == Ends(s);
    BetweenAreWords(s, "");
    if Between(s, "") == [] {
      assert Lead(s) == Lead(s) + "" + "";
      StripEnds(Lead(s), "", "");
    } else {
      JoinedEnds(Between(s, ""));
      StripEnds(Lead(s), Joined(Between(s, ""), '_'), Trail(s));
    }
  }

  /* ---------- the two together ---------- */

  lemma {:induction false} FoldAppend(a: string, b: string)
    ensures Fold(a + b) == Fold(a) + Fold(b)
  {
    if a == "" {
      assert a + b == b;
    } else {
      assert (a + b)[1..] == a[1..] + b;
      FoldAppend(a[1..], b);
    }
  }

  /** What splitting and folding make of the first character. */
  lemma FoldHead(s: string)
    requires s != ""
    ensures EndsWord(s) == WordEnds(s)
    ensures Fold(SplitCamel(s))
         == [if Separator(s[0]) then '_' else Small(s[0])] + ((if EndsWord(s) then "_" else "") + Fold(SplitCamel(s[1..])))
  {
    var cut := if WordEnds(s) then "_" else "";
    var tail := SplitCamel(s[1..]);
    assert SplitCamel(s) == [s[0]] + (cut + tail);
    FoldAppend([s[0]], cut + tail);
    FoldAppend(cut, tail);
    FoldOne(s[0]);
    FoldOne('_');
    assert Fold("") == "";
  }

  lemma FoldOne(c: char)
    ensures Fold([c]) == [if Separator(c) then '_' else Small(c)]
  {
    assert [c][1..] == "";
  }

  lemma BetweenUnderscore(s: string, word: string)
    ensures Between("_" + s, word) == (if word == "" then [] else [word]) + Between(s, "")
  {
    assert ("_" + s)[1..] == s;
  }

  lemma BetweenLetter(c: char, s: string, word: string)
    requires c != '_'
    ensures Between([c] + s, word) == Between(s, word + [c])
  {
    assert ([c] + s)[1..] == s;
  }

  lemma SmallIsNoSeparator(c: char)
    requires !Separator(c)
    ensures Small(c) != '_'
  {
  }

  lemma {:induction false} FoldedWords(s: string, word: string)
    ensures Between(Fold(SplitCamel(s)), word) == Words(s, word)
  {
    hide Fold, SplitCamel, Between;
    if s == "" {
      FoldedNothing(word);
    } else {
      FoldHead(s);
      var tail := Fold(SplitCamel(s[1..]));
      if Separator(s[0]) {
        assert "" + tail == tail;
        BetweenUnderscore(tail, word);
        FoldedWords(s[1..], "");
      } else {
        SmallIsNoSeparator(s[0]);
        BetweenLetter(Small(s[0]), (if EndsWord(s) then "_" else "") + tail, word);
        if EndsWord(s) {
          BetweenUnderscore(tail, word + [Small(s[0])]);
          FoldedWords(s[1..], "");
        } else {
          assert "" + tail == tail;
          FoldedWords(s[1..], word + [Small(s[0])]);
        }
      }
    }
  }

  lemma FoldedNothing(word: string)
    ensures Between(Fold(SplitCamel("")), word) == if word == "" then [] else [word]
  {
  }

  /**
   Any key at all normalises to its words: cut at `_`, `-`, spaces and the boundaries of camelCase, in lower case,
   nothing else of it changed, and joined with single underscores.
   */
  lemma NormalisesToItsWords(key: string)
    ensures NormaliseKey(key) == Joined(Words(Trim(key), ""), '_')
  {
    SplitCamelIs(Trim(key));
    FoldedWords(Trim(key), "");
    StripCollapse(Fold(SplitCamel(Trim(key))));
  }
}
