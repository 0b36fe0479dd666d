/** The walker that rejects a payload nesting a forbidden or non-string key at any depth. */
module AuthorityWalker {
  import opened Common
  import opened AuthorityKeys

  const FORBIDDEN_AUTHORITY_KEYS: set<string> := {
    "allowed_tools", "granted_capabilities", "execution_approved", "policy_override", "release_approved",
    "gate_passed", "retry_limit", "execution_priority", "human_approved", "sandbox_bypass", "capability_grant",
    "command", "argv", "shell", "executable", "subprocess", "fs_handle", "file_handle"
  }

  const FORBIDDEN_SECRET_KEYS: set<string> := {
    "api_key", "apikey", "bearer_token", "password", "private_key", "authorization", "secret", "token"
  }

  datatype Key = Text(text: string) | Other

  datatype Payload = Mapping(fields: seq<Field>) | Items(items: seq<Payload>) | Leaf

  datatype Field = Field(key: Key, value: Payload)

  datatype Violation = NotAString | AuthorityKey(key: string) | SecretKey(key: string)

  function KeyViolation(key: Key): Option<Violation> {
    match key
    case Other => Some(NotAString)
    case Text(text) =>
      var normalised := NormaliseKey(text);
      if normalised in FORBIDDEN_AUTHORITY_KEYS then Some(AuthorityKey(text))
      else if normalised in FORBIDDEN_SECRET_KEYS then Some(SecretKey(text))
      else None
  }

  /** The first violation in document order. */
  function Reject(value: Payload): Option<Violation>
    decreases value, 0
  {
    match value
    case Mapping(fields) => RejectFields(fields)
    case Items(items) => RejectItems(items)
    case Leaf => None
  }

  function RejectFields(fields: seq<Field>): Option<Violation>
    decreases fields, 1
  {
    if fields == [] then None
    else if KeyViolation(fields[0].key).Some? then KeyViolation(fields[0].key)
    else
      assert fields[0].value < fields[0];
      var inner := Reject(fields[0].value);
      if inner.Some? then inner else RejectFields(fields[1..])
  }

  function RejectItems(items: seq<Payload>): Option<Violation>
    decreases items, 1
  {
    if items == [] then None
    else
      var inner := Reject(items[0]);
      if inner.Some? then inner else RejectItems(items[1..])
  }

  /** The value reached by following child positions from `value`. */
  function At(value: Payload, path: seq<nat>): Option<Payload>
    decreases path
  {
    if path == [] then Some(value)
    else match value
      case Mapping(fields) => if path[0] < |fields| then At(fields[path[0]].value, path[1..]) else None
      case Items(items) => if path[0] < |items| then At(items[path[0]], path[1..]) else None
      case Leaf => None
  }

  /** Every key of a mapping is text, and what it normalises to is on neither list. */
  predicate KeysAllowed(value: Payload) {
    value.Mapping? ==> forall i :: 0 <= i < |value.fields| ==>
                         && value.fields[i].key.Text?
                         && NormaliseKey(value.fields[i].key.text) !in FORBIDDEN_AUTHORITY_KEYS
                         && NormaliseKey(value.fields[i].key.text) !in FORBIDDEN_SECRET_KEYS
  }

  /** No mapping at any depth has a forbidden or non-string key. */
  ghost predicate AllowedEverywhere(value: Payload) {
    forall path: seq<nat> :: At(value, path).Some? ==> KeysAllowed(At(value, path).value)
  }

  lemma {:induction false} FieldsAccepted(fields: seq<Field>)
    ensures RejectFields(fields).None? <==>
            forall i :: 0 <= i < |fields| ==> KeyViolation(fields[i].key).None? && Reject(fields[i].value).None?
  {
    if fields != [] {
      FieldsAccepted(fields[1..]);
      assert forall i :: 1 <= i < |fields| ==> fields[i] == fields[1..][i - 1];
    }
  }

  lemma {:induction false} ItemsAccepted(items: seq<Payload>)
    ensures RejectItems(items).None? <==> forall i :: 0 <= i < |items| ==> Reject(items[i]).None?
  {
    if items != [] {
      ItemsAccepted(items[1..]);
      assert forall i :: 1 <= i < |items| ==> items[i] == items[1..][i - 1];
    }
  }

  /** What is accepted has only allowed keys, wherever one looks. */
  lemma {:induction false} AcceptedMeansAllowed(value: Payload, path: seq<nat>)
    requires Reject(value).None? && At(value, path).Some?
    ensures KeysAllowed(At(value, path).value)
    decreases path
  {
    match value
    case Leaf =>
    case Mapping(fields) =>
      FieldsAccepted(fields);
      if path != [] {
        AcceptedMeansAllowed(fields[path[0]].value, path[1..]);
      }
    case Items(items) =>
      ItemsAccepted(items);
      if path != [] {
        AcceptedMeansAllowed(items[path[0]], path[1..]);
      }
  }

  lemma ChildAllowed(value: Payload, child: Payload, i: nat)
    requires AllowedEverywhere(value) && At(value, [i]) == Some(child)
    requires match value
             case Mapping(fields) => i < |fields| && fields[i].value == child
             case Items(items) => i < |items| && items[i] == child
             case Leaf => false
    ensures AllowedEverywhere(child)
  {
    forall path: seq<nat> | At(child, path).Some? ensures KeysAllowed(At(child, path).value) {
      assert ([i] + path)[1..] == path;
      assert At(value, [i] + path) == At(child, path);
    }
  }

  /** What has only allowed keys is accepted. */
  lemma {:induction false} AllowedMeansAccepted(value: Payload)
    requires AllowedEverywhere(value)
    ensures Reject(value).None?
    decreases value
  {
    assert At(value, []) == Some(value);
    match value
    case Leaf =>
    case Mapping(fields) =>
      forall i | 0 <= i < |fields| ensures KeyViolation(fields[i].key).None? && Reject(fields[i].value).None? {
        ChildAllowed(value, fields[i].value, i);
        AllowedMeansAccepted(fields[i].value);
      }
      FieldsAccepted(fields);
    case Items(items) =>
      forall i | 0 <= i < |items| ensures Reject(items[i]).None? {
        ChildAllowed(value, items[i], i);
        AllowedMeansAccepted(items[i]);
      }
      ItemsAccepted(items);
  }

  /** The walker accepts a payload exactly when no mapping at any depth has a forbidden or non-string key. */
  lemma AcceptsExactlyTheAllowed(value: Payload)
    ensures Reject(value).None? <==> AllowedEverywhere(value)
  {
    if Reject(value).None? {
      forall path: seq<nat> | At(value, path).Some? ensures KeysAllowed(At(value, path).value) {
        AcceptedMeansAllowed(value, path);
      }
    } else if AllowedEverywhere(value) {
      AllowedMeansAccepted(value);
    }
  }

  /** The field at `i` of the mapping that `path` leads to is what `v` complains about. */
  ghost predicate Offends(value: Payload, path: seq<nat>, i: nat, v: Violation) {
    && At(value, path).Some? && At(value, path).value.Mapping? && i < |At(value, path).value.fields|
    && var key := At(value, path).value.fields[i].key;
       match v
       case NotAString => key == Other
       case AuthorityKey(text) => key == Text(text) && NormaliseKey(text) in FORBIDDEN_AUTHORITY_KEYS
       case SecretKey(text) => key == Text(text) && NormaliseKey(text) in FORBIDDEN_SECRET_KEYS
  }

  lemma Deeper(value: Payload, child: Payload, c: nat, path: seq<nat>, i: nat, v: Violation)
    requires At(value, [c] + path) == At(child, path) && Offends(child, path, i, v)
    ensures Offends(value, [c] + path, i, v)
  {
  }

  lemma {:induction false} FieldReported(fields: seq<Field>) returns (c: nat)
    requires RejectFields(fields).Some?
    ensures c < |fields|
    ensures RejectFields(fields) == KeyViolation(fields[c].key) || RejectFields(fields) == Reject(fields[c].value)
  {
    if KeyViolation(fields[0].key).Some? || Reject(fields[0].value).Some? {
      c := 0;
    } else {
      var inner := FieldReported(fields[1..]);
      c := inner + 1;
    }
  }

  lemma {:induction false} ItemReported(items: seq<Payload>) returns (c: nat)
    requires RejectItems(items).Some?
    ensures c < |items| && RejectItems(items) == Reject(items[c])
  {
    if Reject(items[0]).Some? {
      c := 0;
    } else {
      var inner := ItemReported(items[1..]);
      c := inner + 1;
    }
  }

  lemma KeyReported(value: Payload, c: nat, v: Violation)
    requires value.Mapping? && c < |value.fields| && KeyViolation(value.fields[c].key) == Some(v)
    ensures Offends(value, [], c, v)
  {
    assert At(value, []) == Some(value);
  }

  /** What the walker reports is there: the key it names, of the kind it says, somewhere in the payload. */
  lemma {:induction false} ReportedKeyIsThere(value: Payload) returns (path: seq<nat>, i: nat)
    requires Reject(value).Some?
    ensures Offends(value, path, i, Reject(value).value)
    decreases value
  {
    hide Offends, KeyViolation;
    if value.Mapping? {
      var c := FieldReported(value.fields);
      if Reject(value) == KeyViolation(value.fields[c].key) {
        path, i := [], c;
        KeyReported(value, c, Reject(value).value);
      } else {
        var inner, j := ReportedKeyIsThere(value.fields[c].value);
        path, i := [c] + inner, j;
        assert path[1..] == inner;
        Deeper(value, value.fields[c].value, c, inner, j, Reject(value).value);
      }
    } else {
      var c := ItemReported(value.items);
      var inner, j := ReportedKeyIsThere(value.items[c]);
      path, i := [c] + inner, j;
      assert path[1..] == inner;
      Deeper(value, value.items[c], c, inner, j, Reject(value).value);
    }
  }

  /* ---------- the listed keys in all their spellings ---------- */

  /** `k` continues a word of `run` letters: every word has two letters or more and nothing but letters. */
  predicate LongWords(k: string, run: nat) {
    if k == "" then run >= 2
    else if k[0] == '_' then run >= 2 && LongWords(k[1..], 0)
    else IsLowerLetter(k[0]) && LongWords(k[1..], run + 1)
  }

  /** The words of a snake_case key, `word` being the one that is read. */
  function WordsOf(k: string, word: string): seq<string> {
    if k == "" then [word]
    else if k[0] == '_' then [word] + WordsOf(k[1..], "")
    else WordsOf(k[1..], word + [k[0]])
  }

  predicate LongWord(w: string) {
    |w| >= 2 && forall i :: 0 <= i < |w| ==> IsLowerLetter(w[i])
  }

  lemma {:induction false} WordsOfIs(k: string, word: string)
    requires LongWords(k, |word|) && forall i :: 0 <= i < |word| ==> IsLowerLetter(word[i])
    ensures WordsOf(k, word) != [] && Joined(WordsOf(k, word), '_') == word + k
    ensures forall i :: 0 <= i < |WordsOf(k, word)| ==> LongWord(WordsOf(k, word)[i])
  {
    if k == "" {
      assert word + k == word;
    } else if k[0] == '_' {
      WordsOfIs(k[1..], "");
      var rest := WordsOf(k[1..], "");
      assert "" + k[1..] == k[1..];
      assert ([word] + rest)[1..] == rest;
      assert word + ['_'] + k[1..] == word + k;
    } else {
      WordsOfIs(k[1..], word + [k[0]]);
      assert word + [k[0]] + k[1..] == word + k;
    }
  }

  lemma {:induction false} LongWordIsLong(w: string, run: nat)
    requires run + |w| >= 2 && forall i :: 0 <= i < |w| ==> IsLowerLetter(w[i])
    ensures LongWords(w, run)
  {
    if w != "" {
      LongWordIsLong(w[1..], run + 1);
    }
  }

  lemma {:induction false} TwoWordsAreLong(w: string, rest: string, run: nat)
    requires run + |w| >= 2 && (forall i :: 0 <= i < |w| ==> IsLowerLetter(w[i])) && LongWord(rest)
    ensures LongWords(w + "_" + rest, run)
  {
    var all := w + "_" + rest;
    if w == "" {
      assert all[1..] == rest;
      LongWordIsLong(rest, 0);
    } else {
      assert all[1..] == w[1..] + "_" + rest;
      TwoWordsAreLong(w[1..], rest, run + 1);
    }
  }

  /** A key of one or two such words. */
  predicate FewLongWords(k: string) {
    LongWord(k) || exists n :: 0 <= n < |k| && k[n] == '_' && LongWord(k[..n]) && LongWord(k[n + 1..])
  }

  lemma FewAreLong(k: string)
    requires FewLongWords(k)
    ensures LongWords(k, 0)
  {
    if LongWord(k) {
      LongWordIsLong(k, 0);
    } else {
      var n :| 0 <= n < |k| && k[n] == '_' && LongWord(k[..n]) && LongWord(k[n + 1..]);
      assert k == k[..n] + "_" + k[n + 1..];
      TwoWordsAreLong(k[..n], k[n + 1..], 0);
    }
  }

  lemma TwoWords(a: string, b: string)
    requires LongWord(a) && LongWord(b)
    ensures FewLongWords(a + "_" + b)
  {
    var k, n := a + "_" + b, |a|;
    assert k[n] == '_' && k[..n] == a && k[n + 1..] == b;
  }

  lemma AuthorityKeysOne()
    ensures forall k :: k in {"allowed_tools", "granted_capabilities", "execution_approved", "policy_override", "release_approved"} ==> FewLongWords(k)
  {
    TwoWords("allowed", "tools");
    assert "allowed_tools" == "allowed" + "_" + "tools";
    TwoWords("granted", "capabilities");
    assert "granted_capabilities" == "granted" + "_" + "capabilities";
    TwoWords("execution", "approved");
    assert "execution_approved" == "execution" + "_" + "approved";
    TwoWords("policy", "override");
    assert "policy_override" == "policy" + "_" + "override";
    TwoWords("release", "approved");
    assert "release_approved" == "release" + "_" + "approved";
  }

  lemma AuthorityKeysTwo()
    ensures forall k :: k in {"gate_passed", "retry_limit", "execution_priority", "human_approved", "sandbox_bypass"} ==> FewLongWords(k)
  {
    TwoWords("gate", "passed");
    assert "gate_passed" == "gate" + "_" + "passed";
    TwoWords("retry", "limit");
    assert "retry_limit" == "retry" + "_" + "limit";
    TwoWords("execution", "priority");
    assert "execution_priority" == "execution" + "_" + "priority";
    TwoWords("human", "approved");
    assert "human_approved" == "human" + "_" + "approved";
    TwoWords("sandbox", "bypass");
    assert "sandbox_bypass" == "sandbox" + "_" + "bypass";
  }

  lemma AuthorityKeysThree()
    ensures forall k :: k in {"capability_grant", "command", "argv", "shell", "executable", "subprocess"} ==> FewLongWords(k)
  {
    TwoWords("capability", "grant");
    assert "capability_grant" == "capability" + "_" + "grant";
    assert LongWord("command");
    assert LongWord("argv");
    assert LongWord("shell");
    assert LongWord("executable");
    assert LongWord("subprocess");
  }

  lemma AuthorityKeysFour()
    ensures forall k :: k in {"fs_handle", "file_handle"} ==> FewLongWords(k)
  {
    TwoWords("fs", "handle");
    assert "fs_handle" == "fs" + "_" + "handle";
    TwoWords("file", "handle");
    assert "file_handle" == "file" + "_" + "handle";
  }

  lemma SecretKeysAll()
    ensures forall k :: k in {"api_key", "apikey", "bearer_token", "password", "private_key", "authorization", "secret", "token"} ==> FewLongWords(k)
  {
    TwoWords("api", "key");
    assert "api_key" == "api" + "_" + "key";
    assert LongWord("apikey");
    TwoWords("bearer", "token");
    assert "bearer_token" == "bearer" + "_" + "token";
    assert LongWord("password");
    TwoWords("private", "key");
    assert "private_key" == "private" + "_" + "key";
    assert LongWord("authorization");
    assert LongWord("secret");
    assert LongWord("token");
  }

  /** Every listed key is one or two words of nothing but letters, two at least. */
  lemma ListedKeysAreLong(k: string)
    requires k in FORBIDDEN_AUTHORITY_KEYS || k in FORBIDDEN_SECRET_KEYS
    ensures LongWords(k, 0)
  {
    hide FewLongWords, LongWords;
    AuthorityKeysOne();
    AuthorityKeysTwo();
    AuthorityKeysThree();
    AuthorityKeysFour();
    SecretKeysAll();
    FewAreLong(k);
  }

  datatype Spelling = Separated(sep: char) | CamelCase | PascalCase | ScreamingSnake

  predicate SpellingOk(spelling: Spelling) {
    spelling.Separated? ==> spelling.sep in {'-', ' ', '_'}
  }

  /** A word list in one of the usual spellings. */
  function Spell(words: seq<string>, spelling: Spelling): string {
    match spelling
    case Separated(sep) => Joined(words, sep)
    case CamelCase => Camel(words)
    case PascalCase => Capitalised(words)
    case ScreamingSnake => Upper(Joined(words, '_'))
  }

  /** Words of two or more letters normalise to their snake_case spelling, however they are spelled. */
  lemma LongWordsAgree(words: seq<string>, spelling: Spelling)
    requires words != [] && (forall i :: 0 <= i < |words| ==> LongWord(words[i])) && SpellingOk(spelling)
    ensures NormaliseKey(Spell(words, spelling)) == Joined(words, '_')
  {
    assert AreKeyWords(words) by {
      forall i | 0 <= i < |words| ensures IsKeyWord(words[i]) {
        assert LongWord(words[i]);
      }
    }
    forall i, j | 0 <= i && j == i + 1 < |words| ensures BoundaryShows(words[i], words[j]) {
      assert LongWord(words[i]);
    }
    hide NormaliseKey, Joined, Capitalised, Glue, Upper;
    match spelling
    case Separated(sep) => SeparatedSpellingsAgree(words, sep);
    case CamelCase => CamelAgreesExactly(words);
    case PascalCase => PascalAgreesExactly(words);
    case ScreamingSnake =>
      NoDigits(words);
      ScreamingAgreesExactly(words);
  }

  lemma {:induction false} LettersOnly(words: seq<string>)
    requires forall i :: 0 <= i < |words| ==> LongWord(words[i])
    ensures forall i :: 0 <= i < |Joined(words, '_')| ==> !IsDigit(Joined(words, '_')[i])
  {
    if words != [] {
      assert LongWord(words[0]);
      LettersOnly(words[1..]);
    }
  }

  lemma {:induction false} NoDigitThenLetter(s: string)
    requires forall i :: 0 <= i < |s| ==> !IsDigit(s[i])
    ensures !DigitThenLetter(s)
  {
    if |s| >= 2 {
      NoDigitThenLetter(s[1..]);
    }
  }

  lemma NoDigits(words: seq<string>)
    requires forall i :: 0 <= i < |words| ==> LongWord(words[i])
    ensures !DigitThenLetter(Joined(words, '_'))
  {
    LettersOnly(words);
    NoDigitThenLetter(Joined(words, '_'));
  }

  lemma ListedIsViolation(text: string)
    requires NormaliseKey(text) in FORBIDDEN_AUTHORITY_KEYS || NormaliseKey(text) in FORBIDDEN_SECRET_KEYS
    ensures KeyViolation(Text(text)).Some?
  {
    hide NormaliseKey;
  }

  /** A listed key is a violation in every one of the usual spellings. */
  lemma EverySpellingIsCaught(k: string, spelling: Spelling)
    requires k in FORBIDDEN_AUTHORITY_KEYS || k in FORBIDDEN_SECRET_KEYS
    requires SpellingOk(spelling)
    ensures Joined(WordsOf(k, ""), '_') == k
    ensures KeyViolation(Text(Spell(WordsOf(k, ""), spelling))).Some?
  {
    hide NormaliseKey, LongWords, WordsOf, Spell, KeyViolation, Joined;
    ListedKeysAreLong(k);
    WordsOfIs(k, "");
    assert "" + k == k;
    LongWordsAgree(WordsOf(k, ""), spelling);
    ListedIsViolation(Spell(WordsOf(k, ""), spelling));
  }

  /** And so a payload with it as a key of some mapping is rejected, at whatever depth that mapping lies. */
  lemma CaughtAtAnyDepth(k: string, spelling: Spelling, value: Payload, path: seq<nat>, i: nat)
    requires k in FORBIDDEN_AUTHORITY_KEYS || k in FORBIDDEN_SECRET_KEYS
    requires SpellingOk(spelling)
    requires At(value, path).Some? && At(value, path).value.Mapping? && i < |At(value, path).value.fields|
    requires At(value, path).value.fields[i].key == Text(Spell(WordsOf(k, ""), spelling))
    ensures Reject(value).Some?
  {
    EverySpellingIsCaught(k, spelling);
    AcceptsExactlyTheAllowed(value);
    hide KeyViolation, Reject, At;
    assert !KeysAllowed(At(value, path).value);
  }
}
