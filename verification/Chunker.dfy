/** The word-window chunker, with white-space tokenising and joining. */
module Chunker {
  import opened Common

  /* ---------- words ---------- */

  /** The characters `str.split()` and `str.strip()` take as white space. */
  predicate IsSpace(c: char) {
    var n := c as int;
    || n == 32 || 9 <= n <= 13 || 28 <= n <= 31 || n == 133 || n == 160 || n == 5760
    || 8192 <= n <= 8202 || n == 8232 || n == 8233 || n == 8239 || n == 8287 || n == 12288
  }

  predicate IsWord(w: string) {
    w != "" && forall i :: 0 <= i < |w| ==> !IsSpace(w[i])
  }

  /** The words of `word + text`, where `word` is the word being read. */
  function Tokens(text: string, word: string): seq<string> {
    var read := if word == "" then [] else [word];
    if text == "" then read
    else if IsSpace(text[0]) then read + Tokens(text[1..], "")
    else Tokens(text[1..], word + [text[0]])
  }

  function Split(text: string): seq<string> {
    Tokens(text, "")
  }

  function Join(words: seq<string>): string {
    if words == [] then ""
    else if |words| == 1 then words[0]
    else words[0] + " " + Join(words[1..])
  }

  lemma {:induction false} TokensAreWords(text: string, word: string)
    requires word == "" || IsWord(word)
    ensures forall i :: 0 <= i < |Tokens(text, word)| ==> IsWord(Tokens(text, word)[i])
  {
    if text != "" {
      if IsSpace(text[0]) {
        TokensAreWords(text[1..], "");
      } else {
        TokensAreWords(text[1..], word + [text[0]]);
      }
    }
  }

  lemma {:induction false} TokensReadWord(w: string, rest: string, word: string)
    requires forall i :: 0 <= i < |w| ==> !IsSpace(w[i])
    ensures Tokens(w + rest, word) == Tokens(rest, word + w)
  {
    if w == "" {
      assert w + rest == rest && word + w == word;
    } else {
      assert (w + rest)[1..] == w[1..] + rest;
      assert word + [w[0]] + w[1..] == word + w;
      TokensReadWord(w[1..], rest, word + [w[0]]);
    }
  }

  /** Joining words with single spaces and splitting again gives the words back. */
  lemma {:induction false} SplitInvertsJoin(words: seq<string>)
    requires forall i :: 0 <= i < |words| ==> IsWord(words[i])
    ensures Split(Join(words)) == words
  {
    if words != [] {
      var w := words[0];
      if |words| == 1 {
        assert w + "" == w;
        TokensReadWord(w, "", "");
        assert "" + w == w;
      } else {
        var rest := " " + Join(words[1..]);
        assert Join(words) == w + rest;
        TokensReadWord(w, rest, "");
        assert "" + w == w && rest[1..] == Join(words[1..]);
        SplitInvertsJoin(words[1..]);
      }
    }
  }

  /** Every white-space character, line breaks among them, separates: what stands on its two sides is split apart. */
  lemma WhiteSpaceSeparates(a: string, c: char, b: string)
    requires c in " \t\n\r" || c as int in {11, 12, 28, 29, 30, 31, 133, 160, 5760, 8232, 8233, 8239, 8287, 12288}
             || 8192 <= c as int <= 8202
    ensures Split(a + [c] + b) == Split(a) + Split(b)
  {
    assert a + [c] + b == a + ([c] + b);
    TokensAcross(a, c, b, "");
  }

  lemma {:induction false} TokensAcross(a: string, c: char, b: string, word: string)
    requires IsSpace(c)
    ensures Tokens(a + ([c] + b), word) == Tokens(a, word) + Tokens(b, "")
  {
    var text := a + ([c] + b);
    if a == "" {
      assert text == [c] + b && text[1..] == b;
    } else {
      assert text[0] == a[0] && text[1..] == a[1..] + ([c] + b);
      if IsSpace(a[0]) {
        TokensAcross(a[1..], c, b, "");
      } else {
        TokensAcross(a[1..], c, b, word + [a[0]]);
      }
    }
  }

  /** Nothing else separates: a text without white space is one word, and no text is no word. */
  lemma OneWordIsOneWord(w: string)
    requires forall i :: 0 <= i < |w| ==>
               var n := w[i] as int;
               && n != 32 && !(9 <= n <= 13) && !(28 <= n <= 31) && n != 133 && n != 160 && n != 5760
               && !(8192 <= n <= 8202) && n != 8232 && n != 8233 && n != 8239 && n != 8287 && n != 12288
    ensures Split(w) == if w == "" then [] else [w]
  {
    assert w + "" == w && "" + w == w;
    TokensReadWord(w, "", "");
  }

  /** The characters that are not white space, in order. */
  function Solid(text: string): string {
    if text == "" then "" else (if IsSpace(text[0]) then "" else [text[0]]) + Solid(text[1..])
  }

  function Letters(words: seq<string>): string {
    if words == [] then "" else words[0] + Letters(words[1..])
  }

  /** The words hold exactly the characters of the text that are not white space, each once and in order. */
  lemma SplitKeepsCharacters(text: string)
    ensures Letters(Split(text)) == Solid(text)
  {
    TokensKeepCharacters(text, "");
    assert "" + Solid(text) == Solid(text);
  }

  lemma {:induction false} TokensKeepCharacters(text: string, word: string)
    ensures Letters(Tokens(text, word)) == word + Solid(text)
  {
    var read := if word == "" then [] else [word];
    if text == "" {
      assert Letters([word]) == word + Letters([]);
    } else if IsSpace(text[0]) {
      TokensKeepCharacters(text[1..], "");
      var rest := Tokens(text[1..], "");
      assert read != [] ==> ([word] + rest)[1..] == rest && ([word] + rest)[0] == word;
      assert [] + rest == rest;
    } else {
      TokensKeepCharacters(text[1..], word + [text[0]]);
    }
  }

  /** One space between words and nothing before, after or beside them. */
  lemma {:induction false} JoinsWithOneSpace(words: seq<string>, w: string)
    ensures Join([w]) == w
    ensures Join(words + [w]) == if words == [] then w else Join(words) + " " + w
  {
    if words == [] {
      assert words + [w] == [w];
    } else {
      JoinsWithOneSpace(words[1..], w);
      assert (words + [w])[0] == words[0] && (words + [w])[1..] == words[1..] + [w];
      if |words| > 1 {
        assert words[0] + " " + (Join(words[1..]) + " " + w) == (words[0] + " " + Join(words[1..])) + " " + w;
      }
    }
  }

  /* ---------- windows ---------- */

  predicate WindowOptions(size: int, overlap: int) {
    1 <= size && 0 <= overlap < size
  }

  /** Where window `k` starts: `k` steps into the input. */
  function Start(step: nat, k: nat): nat {
    if k == 0 then 0 else Start(step, k - 1) + step
  }

  lemma {:induction false} StartIs(step: nat, k: nat)
    ensures Start(step, k) == k * step
  {
    if k > 0 {
      StartIs(step, k - 1);
      assert k * step == (k - 1) * step + step;
    }
  }

  /** How many windows it takes to reach word `n` when one starts at `start`. */
  function CountFrom(n: nat, size: nat, step: nat, start: nat): nat
    requires 1 <= step
    decreases n - start
  {
    if start + size >= n then 1 else 1 + CountFrom(n, size, step, start + step)
  }

  function ChunkCount(n: nat, size: nat, overlap: nat): nat
    requires WindowOptions(size, overlap)
  {
    if n == 0 then 0 else CountFrom(n, size, size - overlap, 0)
  }

  /** Exactly the last window reaches the end of the input, and every window starts inside it. */
  lemma {:induction false} CountFromIs(n: nat, size: nat, step: nat, k: nat, c: nat)
    requires 1 <= step <= size && Start(step, k) < n && k < c
    requires c - k == CountFrom(n, size, step, Start(step, k))
    ensures Start(step, c - 1) < n && Start(step, c - 1) + size >= n
    ensures forall j :: k <= j < c - 1 ==> Start(step, j) + size < n
    decreases c - k
  {
    if Start(step, k) + size < n {
      CountFromIs(n, size, step, k + 1, c);
    }
  }

  lemma {:induction false} StartGrows(step: nat, j: nat, k: nat)
    requires j <= k
    ensures Start(step, j) <= Start(step, k)
  {
    if j < k {
      StartGrows(step, j, k - 1);
    }
  }

  lemma WindowStarts(n: nat, size: nat, overlap: nat, k: nat)
    requires WindowOptions(size, overlap) && k < ChunkCount(n, size, overlap)
    ensures Start(size - overlap, k) < n
    ensures k > 0 ==> Start(size - overlap, k) + overlap < n
    ensures Start(size - overlap, k) + size >= n <==> k + 1 == ChunkCount(n, size, overlap)
  {
    var c := ChunkCount(n, size, overlap);
    CountFromIs(n, size, size - overlap, 0, c);
    StartGrows(size - overlap, k, c - 1);
    if k > 0 {
      assert Start(size - overlap, k) == Start(size - overlap, k - 1) + (size - overlap);
    }
  }

  /** The count in closed form: one window if it all fits, else one more than the steps that cover the rest. */
  lemma ChunkCountClosedForm(n: nat, size: nat, overlap: nat)
    requires WindowOptions(size, overlap) && n > 0
    ensures n <= size ==> ChunkCount(n, size, overlap) == 1
    ensures n > size ==> var steps := ChunkCount(n, size, overlap) - 1;
                         steps >= 1 && (steps - 1) * (size - overlap) < n - size <= steps * (size - overlap)
  {
    if n > size {
      var c := ChunkCount(n, size, overlap);
      WindowStarts(n, size, overlap, 0);
      WindowStarts(n, size, overlap, c - 1);
      WindowStarts(n, size, overlap, c - 2);
      StartIs(size - overlap, c - 1);
      StartIs(size - overlap, c - 2);
    }
  }

  /** Where window `k` ends: the last window is cut at the end of the input. */
  function WindowEnd(n: nat, size: nat, overlap: nat, k: nat): nat
    requires WindowOptions(size, overlap)
  {
    if Start(size - overlap, k) + size <= n then Start(size - overlap, k) + size else n
  }

  function Window(words: seq<string>, size: nat, overlap: nat, k: nat): seq<string>
    requires WindowOptions(size, overlap) && k < ChunkCount(|words|, size, overlap)
  {
    WindowStarts(|words|, size, overlap, k);
    words[Start(size - overlap, k)..WindowEnd(|words|, size, overlap, k)]
  }

  function Windows(words: seq<string>, size: nat, overlap: nat): seq<seq<string>>
    requires WindowOptions(size, overlap)
  {
    seq(ChunkCount(|words|, size, overlap), k requires 0 <= k < ChunkCount(|words|, size, overlap) =>
      Window(words, size, overlap, k))
  }

  function Chunks(text: string, size: nat, overlap: nat): seq<string>
    requires WindowOptions(size, overlap)
  {
    var windows := Windows(Split(text), size, overlap);
    seq(|windows|, k requires 0 <= k < |windows| => Join(windows[k]))
  }

  lemma NextCount(n: nat, size: nat, step: nat, k: nat)
    requires 1 <= step
    ensures Start(step, k + 1) == Start(step, k) + step
    ensures CountFrom(n, size, step, Start(step, k))
         == if Start(step, k) + size >= n then 1 else 1 + CountFrom(n, size, step, Start(step, k + 1))
  {
  }

  lemma PrefixSnoc(s: seq<string>, k: nat)
    requires k < |s|
    ensures s[..k + 1] == s[..k] + [s[k]]
  {
  }

  lemma ChunkAt(text: string, size: nat, overlap: nat, k: nat)
    requires WindowOptions(size, overlap) && k < |Chunks(text, size, overlap)|
    ensures Start(size - overlap, k) < |Split(text)|
    ensures Chunks(text, size, overlap)[k]
         == Join(Split(text)[Start(size - overlap, k)..WindowEnd(|Split(text)|, size, overlap, k)])
  {
    WindowStarts(|Split(text)|, size, overlap, k);
  }

  method ChunkText(text: string, size: int, overlap: int) returns (r: Result<seq<string>, string>)
    ensures r.Success? <==> 1 <= size && 0 <= overlap < size
    ensures r.Success? ==> r.value == Chunks(text, size, overlap)
  {
    if size < 1 {
      return Failure("size must be >= 1");
    }
    if overlap < 0 || overlap >= size {
      return Failure("overlap must satisfy 0 <= overlap < size");
    }
    var words := Split(text);
    var n := |words|;
    if n == 0 {
      return Success([]);
    }
    var step := size - overlap;
    ghost var all := Chunks(text, size, overlap);
    assert |all| == CountFrom(n, size, step, 0);
    hide Chunks, Windows, Window, Split, Join, CountFrom;
    var chunks: seq<string> := [];
    var start := 0;
    while true
      invariant start == Start(step, |chunks|) < n
      invariant |all| == |chunks| + CountFrom(n, size, step, start)
      invariant chunks == all[..|chunks|]
      decreases n - start
    {
      var end := if start + size <= n then start + size else n;
      ChunkAt(text, size, overlap, |chunks|);
      PrefixSnoc(all, |chunks|);
      NextCount(n, size, step, |chunks|);
      chunks := chunks + [Join(words[start..end])];
      if end == n {
        break;
      }
      start := start + step;
    }
    return Success(chunks);
  }

  /* ---------- nothing is lost ---------- */

  /** The first window, then of every later one what follows its first `overlap` words. */
  function Reassemble(windows: seq<seq<string>>, overlap: nat): seq<string> {
    if windows == [] then []
    else
      var last := windows[|windows| - 1];
      Reassemble(windows[..|windows| - 1], overlap)
      + (if |windows| == 1 then last else if overlap <= |last| then last[overlap..] else [])
  }

  /** A later window without its first `overlap` words continues exactly where the one before it ended. */
  lemma WindowExtends(words: seq<string>, size: nat, overlap: nat, k: nat)
    requires WindowOptions(size, overlap) && 0 < k < ChunkCount(|words|, size, overlap)
    ensures overlap <= |Window(words, size, overlap, k)|
    ensures words[..WindowEnd(|words|, size, overlap, k - 1)] + Window(words, size, overlap, k)[overlap..]
            == words[..WindowEnd(|words|, size, overlap, k)]
  {
    WindowStarts(|words|, size, overlap, k - 1);
    WindowStarts(|words|, size, overlap, k);
    var start, end := Start(size - overlap, k), WindowEnd(|words|, size, overlap, k);
    assert words[start..end][overlap..] == words[start + overlap..end];
  }

  lemma ReassembleOneMore(windows: seq<seq<string>>, last: seq<string>, overlap: nat)
    ensures Reassemble(windows + [last], overlap)
            == Reassemble(windows, overlap)
               + (if windows == [] then last else if overlap <= |last| then last[overlap..] else [])
  {
    assert (windows + [last])[..|windows|] == windows;
  }

  lemma {:induction false} ReassemblePrefix(words: seq<string>, size: nat, overlap: nat, k: nat)
    requires WindowOptions(size, overlap) && k <= ChunkCount(|words|, size, overlap)
    ensures Reassemble(Windows(words, size, overlap)[..k], overlap)
            == if k == 0 then [] else words[..WindowEnd(|words|, size, overlap, k - 1)]
  {
    hide Reassemble, Window, WindowEnd;
    if k == 0 {
      ReassembleNothing(Windows(words, size, overlap)[..0], overlap);
    } else {
      ReassemblePrefix(words, size, overlap, k - 1);
      NextWindow(words, size, overlap, k - 1);
      hide Windows;
      if k > 1 {
        WindowExtends(words, size, overlap, k - 1);
      } else {
        FirstWindow(words, size, overlap);
      }
      ReassembleOneMore(Windows(words, size, overlap)[..k - 1], Window(words, size, overlap, k - 1), overlap);
    }
  }

  lemma ReassembleNothing(windows: seq<seq<string>>, overlap: nat)
    requires windows == []
    ensures Reassemble(windows, overlap) == []
  {
  }

  lemma NextWindow(words: seq<string>, size: nat, overlap: nat, k: nat)
    requires WindowOptions(size, overlap) && k < ChunkCount(|words|, size, overlap)
    ensures |Windows(words, size, overlap)| == ChunkCount(|words|, size, overlap)
    ensures Windows(words, size, overlap)[..k + 1] == Windows(words, size, overlap)[..k] + [Window(words, size, overlap, k)]
  {
  }

  lemma FirstWindow(words: seq<string>, size: nat, overlap: nat)
    requires WindowOptions(size, overlap) && 0 < ChunkCount(|words|, size, overlap)
    ensures WindowEnd(|words|, size, overlap, 0) <= |words|
    ensures Window(words, size, overlap, 0) == words[..WindowEnd(|words|, size, overlap, 0)]
  {
    WindowStarts(|words|, size, overlap, 0);
  }

  /** The windows cover the input in order: dropping the repeated words gives every word exactly once. */
  lemma WindowsCover(words: seq<string>, size: nat, overlap: nat)
    requires WindowOptions(size, overlap)
    ensures Reassemble(Windows(words, size, overlap), overlap) == words
  {
    var all := Windows(words, size, overlap);
    assert all[..|all|] == all;
    ReassemblePrefix(words, size, overlap, |all|);
    if words != [] {
      WindowStarts(|words|, size, overlap, |all| - 1);
    }
  }

  /**
   What retrieval relies on: tokenising the chunks again loses no word of the document and invents none, and so every
   character of the document that is not white space is kept, in order.
   */
  lemma ChunksKeepEveryWord(text: string, size: nat, overlap: nat)
    requires WindowOptions(size, overlap)
    ensures var chunks := Chunks(text, size, overlap);
            var words := Reassemble(seq(|chunks|, k requires 0 <= k < |chunks| => Split(chunks[k])), overlap);
            words == Split(text) && Letters(words) == Solid(text)
  {
    var words := Split(text);
    var windows := Windows(words, size, overlap);
    var chunks := Chunks(text, size, overlap);
    var tokens := seq(|chunks|, k requires 0 <= k < |chunks| => Split(chunks[k]));
    TokensAreWords(text, "");
    forall k | 0 <= k < |windows| ensures tokens[k] == windows[k] {
      WindowStarts(|words|, size, overlap, k);
      SplitInvertsJoin(windows[k]);
    }
    assert tokens == windows;
    WindowsCover(words, size, overlap);
    SplitKeepsCharacters(text);
  }

  /** No chunk is longer than `size`, and every chunk after the first adds at least one new word. */
  lemma ChunksAreBoundedAndUseful(words: seq<string>, size: nat, overlap: nat, k: nat)
    requires WindowOptions(size, overlap) && k < ChunkCount(|words|, size, overlap)
    ensures 1 <= |Window(words, size, overlap, k)| <= size
    ensures k > 0 ==> overlap < |Window(words, size, overlap, k)|
    ensures k + 1 < ChunkCount(|words|, size, overlap) ==>
              |Window(words, size, overlap, k)| == size && overlap < |Window(words, size, overlap, k + 1)|
              && Window(words, size, overlap, k)[size - overlap..] == Window(words, size, overlap, k + 1)[..overlap]
  {
    WindowStarts(|words|, size, overlap, k);
    if k + 1 < ChunkCount(|words|, size, overlap) {
      WindowStarts(|words|, size, overlap, k + 1);
      var here, next := Start(size - overlap, k), Start(size - overlap, k + 1);
      assert next == here + (size - overlap);
      SharedWords(words, here, here + size, next, WindowEnd(|words|, size, overlap, k + 1));
    }
  }

  /** Two overlapping slices share what lies in both. */
  lemma SharedWords(words: seq<string>, a: nat, b: nat, c: nat, d: nat)
    requires a <= c <= b <= d <= |words|
    ensures words[a..b][c - a..] == words[c..d][..b - c]
  {
  }
}
