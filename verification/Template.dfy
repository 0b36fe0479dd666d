/** The `$`-placeholder grammar of PEP 292 as the overlay renderer uses it. */
module Templates {
  import opened Common

  datatype Piece =
    | Literal(c: char)
    | Dollar                      // `$$`
    | Placeholder(name: string)   // `$name` or `${name}`
    | Malformed                   // a `$` that starts neither

  predicate IsIdStart(c: char) {
    c == '_' || 'a' <= c <= 'z' || 'A' <= c <= 'Z'
  }

  predicate IsIdChar(c: char) {
    IsIdStart(c) || '0' <= c <= '9'
  }

  /** The length of the longest run of identifier characters at the start of `s`. */
  function IdRun(s: string): (n: nat)
    ensures n <= |s|
    ensures forall i :: 0 <= i < n ==> IsIdChar(s[i])
    ensures n < |s| ==> !IsIdChar(s[n])
  {
    if s == "" || !IsIdChar(s[0]) then 0 else 1 + IdRun(s[1..])
  }

  /** Read `s` from the left, one piece at a time. */
  function Scan(s: string): seq<Piece>
    decreases |s|
  {
    if s == "" then []
    else if s[0] != '$' then [Literal(s[0])] + Scan(s[1..])
    else
      var rest := s[1..];
      if rest != "" && rest[0] == '$' then
        [Dollar] + Scan(rest[1..])
      else if rest != "" && IsIdStart(rest[0]) then
        [Placeholder(rest[..IdRun(rest)])] + Scan(rest[IdRun(rest)..])
      else if BracedName(rest).Some? then
        [Placeholder(BracedName(rest).value)] + Scan(rest[|BracedName(rest).value| + 2..])
      else
        [Malformed] + Scan(rest)
  }

  /** The name of a braced placeholder `{name}` at the start of `s`. */
  function BracedName(s: string): (name: Option<string>)
    ensures name.Some? ==> |name.value| + 2 <= |s| && name.value == s[1..|name.value| + 1]
  {
    if s == "" || s[0] != '{' then None
    else
      var inner := s[1..];
      var n := IdRun(inner);
      if 0 < n < |inner| && IsIdStart(inner[0]) && inner[n] == '}' then Some(inner[..n]) else None
  }

  datatype TemplateError = NoValue(name: string) | BadPlaceholder

  /** Fill the pieces from the left; the first one that cannot be filled decides the error. */
  function Fill(pieces: seq<Piece>, variables: map<string, string>): Result<string, TemplateError> {
    if pieces == [] then Success("")
    else
      var text :- match pieces[0]
        case Literal(c) => Success([c])
        case Dollar => Success("$")
        case Placeholder(name) => if name in variables then Success(variables[name]) else Failure(NoValue(name))
        case Malformed => Failure(BadPlaceholder);
      var rest :- Fill(pieces[1..], variables);
      Success(text + rest)
  }

  function Substitute(s: string, variables: map<string, string>): Result<string, TemplateError> {
    Fill(Scan(s), variables)
  }

  /** The identifiers a template mentions; malformed placeholders are passed over. */
  function Identifiers(s: string): set<string> {
    set i | 0 <= i < |Scan(s)| && Scan(s)[i].Placeholder? :: Scan(s)[i].name
  }

  predicate WellFormed(s: string) {
    forall i :: 0 <= i < |Scan(s)| ==> !Scan(s)[i].Malformed?
  }

  lemma {:induction false} FillSucceeds(pieces: seq<Piece>, variables: map<string, string>)
    ensures Fill(pieces, variables).Success? <==>
            forall i :: 0 <= i < |pieces| ==>
              !pieces[i].Malformed? && (pieces[i].Placeholder? ==> pieces[i].name in variables)
  {
    if pieces != [] {
      FillSucceeds(pieces[1..], variables);
      assert forall i :: 1 <= i < |pieces| ==> pieces[i] == pieces[1..][i - 1];
    }
  }

  /** Substitution succeeds or fails independently of the values: only the template and the names count. */
  lemma SubstituteSucceeds(s: string, variables: map<string, string>)
    ensures Substitute(s, variables).Success? <==> WellFormed(s) && Identifiers(s) <= variables.Keys
  {
    FillSucceeds(Scan(s), variables);
    if Identifiers(s) <= variables.Keys {
      forall i | 0 <= i < |Scan(s)| && Scan(s)[i].Placeholder? ensures Scan(s)[i].name in variables {
        assert Scan(s)[i].name in Identifiers(s);
      }
    }
  }

  /** Only the values of mentioned identifiers can influence the text. */
  lemma {:induction false} FillDependsOnNames(pieces: seq<Piece>, u: map<string, string>, v: map<string, string>)
    requires forall i :: 0 <= i < |pieces| && pieces[i].Placeholder? ==>
               (pieces[i].name in u <==> pieces[i].name in v)
               && (pieces[i].name in u ==> u[pieces[i].name] == v[pieces[i].name])
    ensures Fill(pieces, u) == Fill(pieces, v)
  {
    if pieces != [] {
      FillDependsOnNames(pieces[1..], u, v);
    }
  }

  /** Doubling every `$` makes a text that substitution turns back into the original, whatever the variables. */
  function Escape(s: string): string {
    if s == "" then "" else (if s[0] == '$' then "$$" else [s[0]]) + Escape(s[1..])
  }

  lemma {:induction false} SubstituteInvertsEscape(s: string, variables: map<string, string>)
    ensures Substitute(Escape(s), variables) == Success(s)
  {
    if s != "" {
      SubstituteInvertsEscape(s[1..], variables);
      var e := Escape(s);
      if s[0] == '$' {
        assert e[1..][1..] == Escape(s[1..]);
        assert Scan(e) == [Dollar] + Scan(Escape(s[1..]));
      } else {
        assert e[1..] == Escape(s[1..]);
        assert Scan(e) == [Literal(s[0])] + Scan(Escape(s[1..]));
      }
      assert Scan(e)[1..] == Scan(Escape(s[1..]));
      assert [s[0]] + s[1..] == s;
    }
  }

  predicate NameChar(c: char) {
    c == '_' || 'a' <= c <= 'z' || 'A' <= c <= 'Z' || '0' <= c <= '9'
  }

  /** A letter or underscore, then letters, digits and underscores. */
  predicate IsIdentifier(name: string) {
    name != "" && !('0' <= name[0] <= '9') && forall i :: 0 <= i < |name| ==> NameChar(name[i])
  }

  /** A braced placeholder is replaced by its value and nothing else of the text moves. */
  lemma BracedPlaceholderIsReplaced(name: string, suffix: string, variables: map<string, string>)
    requires IsIdentifier(name)
    ensures Scan("${" + name + "}" + suffix) == [Placeholder(name)] + Scan(suffix)
    ensures name !in variables ==> Substitute("${" + name + "}" + suffix, variables) == Failure(NoValue(name))
    ensures name in variables && Substitute(suffix, variables).Success? ==>
              Substitute("${" + name + "}" + suffix, variables) == Success(variables[name] + Substitute(suffix, variables).value)
  {
    BracedIsScanned(name, suffix);
    hide Scan;
    FillOne(Placeholder(name), Scan(suffix), variables);
  }

  lemma BracedIsScanned(name: string, suffix: string)
    requires IsIdentifier(name)
    ensures Scan("${" + name + "}" + suffix) == [Placeholder(name)] + Scan(suffix)
  {
    var s := "${" + name + "}" + suffix;
    var rest := s[1..];
    assert rest == "{" + name + "}" + suffix;
    var inner := rest[1..];
    assert inner == name + "}" + suffix;
    IdRunEnds(inner, |name|);
    assert inner[..|name|] == name;
    assert rest[|name| + 2..] == suffix;
  }

  /** The same without braces, as long as the suffix does not carry the name on. */
  lemma NamedPlaceholderIsReplaced(name: string, suffix: string, variables: map<string, string>)
    requires IsIdentifier(name)
    requires suffix != "" ==> !NameChar(suffix[0])
    ensures Scan("$" + name + suffix) == [Placeholder(name)] + Scan(suffix)
    ensures name !in variables ==> Substitute("$" + name + suffix, variables) == Failure(NoValue(name))
    ensures name in variables && Substitute(suffix, variables).Success? ==>
              Substitute("$" + name + suffix, variables) == Success(variables[name] + Substitute(suffix, variables).value)
  {
    NamedIsScanned(name, suffix);
    hide Scan;
    FillOne(Placeholder(name), Scan(suffix), variables);
  }

  lemma NamedIsScanned(name: string, suffix: string)
    requires IsIdentifier(name)
    requires suffix != "" ==> !NameChar(suffix[0])
    ensures Scan("$" + name + suffix) == [Placeholder(name)] + Scan(suffix)
  {
    hide Scan;
    var rest := name + suffix;
    assert "$" + name + suffix == "$" + rest;
    assert rest[..|name|] == name && rest[|name|..] == suffix;
    NameRuns(name, suffix);
    hide IdRun;
    NameIsScanned(rest);
  }

  lemma NameRuns(name: string, suffix: string)
    requires IsIdentifier(name)
    requires suffix != "" ==> !NameChar(suffix[0])
    ensures IdRun(name + suffix) == |name| && IsIdStart((name + suffix)[0])
  {
    IdRunEnds(name + suffix, |name|);
  }

  lemma NameIsScanned(rest: string)
    requires rest != "" && IsIdStart(rest[0])
    ensures Scan("$" + rest) == [Placeholder(rest[..IdRun(rest)])] + Scan(rest[IdRun(rest)..])
  {
    assert ("$" + rest)[1..] == rest;
  }

  /** The first piece is filled first. */
  lemma FillOne(piece: Piece, pieces: seq<Piece>, variables: map<string, string>)
    ensures piece.Malformed? ==> Fill([piece] + pieces, variables) == Failure(BadPlaceholder)
    ensures piece.Placeholder? && piece.name !in variables ==> Fill([piece] + pieces, variables) == Failure(NoValue(piece.name))
    ensures piece == Dollar && Fill(pieces, variables).Success? ==>
              Fill([piece] + pieces, variables) == Success("$" + Fill(pieces, variables).value)
    ensures piece == Dollar && Fill(pieces, variables).Failure? ==> Fill([piece] + pieces, variables) == Fill(pieces, variables)
    ensures piece.Placeholder? && piece.name in variables && Fill(pieces, variables).Success? ==>
              Fill([piece] + pieces, variables) == Success(variables[piece.name] + Fill(pieces, variables).value)
  {
    assert ([piece] + pieces)[1..] == pieces;
  }

  lemma {:induction false} IdRunEnds(s: string, n: nat)
    requires n <= |s| && (forall i :: 0 <= i < n ==> IsIdChar(s[i])) && (n < |s| ==> !IsIdChar(s[n]))
    ensures IdRun(s) == n
  {
    if n > 0 {
      IdRunEnds(s[1..], n - 1);
    }
  }

  /** Text before the first `$` passes through; what follows is read as if it stood alone. */
  lemma {:induction false} TextPassesThrough(text: string, rest: string, variables: map<string, string>)
    requires '$' !in text
    ensures Substitute(text + rest, variables)
         == match Substitute(rest, variables)
            case Success(filled) => Success(text + filled)
            case Failure(e) => Failure(e)
  {
    var filled := Substitute(rest, variables);
    if text == "" {
      assert text + rest == rest && (filled.Success? ==> text + filled.value == filled.value);
    } else {
      var all := text + rest;
      assert all[1..] == text[1..] + rest;
      TextPassesThrough(text[1..], rest, variables);
      assert Scan(all) == [Literal(all[0])] + Scan(all[1..]);
      assert Scan(all)[1..] == Scan(all[1..]);
      assert filled.Success? ==> [text[0]] + (text[1..] + filled.value) == text + filled.value;
    }
  }

  /** A `$` that starts no placeholder is refused, with any variables. */
  lemma LoneDollarIsRefused(rest: string, variables: map<string, string>)
    requires rest != "" ==> rest[0] != '$' && rest[0] != '{' && (!NameChar(rest[0]) || '0' <= rest[0] <= '9')
    ensures Substitute("$" + rest, variables) == Failure(BadPlaceholder)
  {
    assert ("$" + rest)[1..] == rest;
    assert Scan("$" + rest) == [Malformed] + Scan(rest);
    FillOne(Malformed, Scan(rest), variables);
  }

  /** `$$` gives one `$`, and what follows is read as if it stood alone. */
  lemma DoubledDollarIsOne(rest: string, variables: map<string, string>)
    ensures Substitute("$$" + rest, variables)
         == match Substitute(rest, variables)
            case Success(filled) => Success("$" + filled)
            case Failure(e) => Failure(e)
  {
    var s := "$$" + rest;
    assert s[1..][1..] == rest;
    assert Scan(s) == [Dollar] + Scan(rest);
    hide Scan;
    FillOne(Dollar, Scan(rest), variables);
  }

  /** An opening brace without a name and its closing brace is refused, with any variables. */
  lemma BrokenBraceIsRefused(rest: string, variables: map<string, string>)
    requires rest == "" || !NameChar(rest[0]) || '0' <= rest[0] <= '9'
             || forall n :: 0 < n < |rest| && rest[n] == '}' ==> exists i :: 0 <= i < n && !NameChar(rest[i])
    ensures Substitute("${" + rest, variables) == Failure(BadPlaceholder)
  {
    var s := "${" + rest;
    assert s[1..][1..] == rest && s[1..] == "{" + rest;
    assert BracedName(s[1..]) == None;
    assert Scan(s) == [Malformed] + Scan(s[1..]);
    hide Scan;
    FillOne(Malformed, Scan(s[1..]), variables);
  }
}
