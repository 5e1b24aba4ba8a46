/** An exec's environment: what is accepted, the file it travels in, and the quoting of
    paths for the shell. */
module ExecEnv {
  import opened Prelude
  import opened Text
  import opened Sorting

  // ----- Acceptance -----

  const MAX_VARS: nat := 64
  const MAX_BYTES: nat := 65536

  predicate NameStart(c: char) {
    c == '_' || 'A' <= c <= 'Z' || 'a' <= c <= 'z'
  }

  predicate ValidName(name: string) {
    name != "" && NameStart(name[0]) && forall c | c in name :: NameStart(c) || '0' <= c <= '9'
  }

  predicate ValidValue(value: string) {
    '\0' !in value && '\n' !in value && '\r' !in value
  }

  type Env = map<string, string>

  function Bytes(env: Env, name: string): nat
    requires name in env
  {
    |name| + |env[name]|
  }

  ghost function TotalBytes(env: Env): nat
    decreases |env|
  {
    if env == map[] then 0 else
      var name :| name in env;
      Bytes(env, name) + TotalBytes(env - {name})
  }

  /** Any name may be counted first. */
  lemma {:induction false} TotalWithout(env: Env, name: string)
    requires name in env
    ensures TotalBytes(env) == Bytes(env, name) + TotalBytes(env - {name})
    decreases |env|
  {
    var first :| first in env && TotalBytes(env) == Bytes(env, first) + TotalBytes(env - {first});
    if first != name {
      TotalWithout(env - {first}, name);
      TotalWithout(env - {name}, first);
      assert Bytes(env - {first}, name) == Bytes(env, name) && Bytes(env - {name}, first) == Bytes(env, first);
      assert env - {first} - {name} == env - {name} - {first};
    }
  }

  datatype Refusal = TooMany | BadName | BadValue | TooLarge

  predicate AllGood(env: Env) {
    forall name | name in env :: ValidName(name) && ValidValue(env[name])
  }

  ghost predicate Accepted(env: Env) {
    |env| <= MAX_VARS && AllGood(env) && TotalBytes(env) <= MAX_BYTES
  }

  /** The variables come in whatever order the map is walked; the verdict does not depend
      on it. */
  method ValidateExecEnv(env: Env) returns (r: Result<(), Refusal>)
    ensures r.Ok? <==> Accepted(env)
    ensures r == Err(TooMany) <==> |env| > MAX_VARS
    ensures r == Err(BadName) ==> |env| <= MAX_VARS && exists name :: name in env && !ValidName(name)
    ensures r == Err(BadValue) ==> |env| <= MAX_VARS && exists name :: name in env && !ValidValue(env[name])
    ensures r == Err(TooLarge) <==> |env| <= MAX_VARS && AllGood(env) && TotalBytes(env) > MAX_BYTES
  {
    if |env| > MAX_VARS {
      return Err(TooMany);
    }
    var total := 0;
    var rest := env;
    while rest != map[]
      invariant rest.Keys <= env.Keys && forall name | name in rest :: rest[name] == env[name]
      invariant forall name | name in env && name !in rest :: ValidName(name) && ValidValue(env[name])
      invariant total + TotalBytes(rest) == TotalBytes(env)
      decreases |rest|
    {
      var name :| name in rest;
      if !ValidName(name) {
        return Err(BadName);
      }
      if !ValidValue(rest[name]) {
        return Err(BadValue);
      }
      TotalWithout(rest, name);
      total := total + |name| + |rest[name]|;
      rest := rest - {name};
    }
    if total > MAX_BYTES {
      return Err(TooLarge);
    }
    return Ok(());
  }

  // ----- The bounds written out -----

  predicate IsLetter(c: char) {
    c in "ABCDEFGHIJKLMNOPQRSTUVWXYZ" || c in "abcdefghijklmnopqrstuvwxyz" || c == '_'
  }

  /** A shell variable's name: letters, digits and underscores, no digit first. */
  predicate ShellName(name: string) {
    name != "" && name[0] !in "0123456789" && forall c | c in name :: IsLetter(c) || c in "0123456789"
  }

  lemma ShellNameIff(name: string)
    ensures ValidName(name) <==> ShellName(name)
  {
    forall c ensures NameStart(c) <==> IsLetter(c) {
      CapitalLetters(c);
      SmallLetters(c);
    }
    forall c ensures '0' <= c <= '9' <==> c in "0123456789" {
      DecimalDigits(c);
    }
    if name != "" {
      assert name[0] in name;
    }
  }

  /** What is accepted: 64 variables and 65536 bytes of names and values at most, shell
      names, and values without NUL or line breaks. */
  lemma AcceptedIff(env: Env)
    ensures Accepted(env) <==>
              && |env| <= 64 && TotalBytes(env) <= 65536
              && forall name | name in env ::
                   ShellName(name) && forall c | c in env[name] :: c != '\0' && c != '\n' && c != '\r'
  {
    forall name | name in env
      ensures ValidName(name) && ValidValue(env[name]) <==>
              ShellName(name) && forall c | c in env[name] :: c != '\0' && c != '\n' && c != '\r'
    {
      ShellNameIff(name);
    }
  }

  /** The bytes counted: each variable adds those of its name and of its value. */
  lemma TotalAdds(env: Env, name: string, value: string)
    requires name !in env
    ensures TotalBytes(map[]) == 0
    ensures TotalBytes(env[name := value]) == TotalBytes(env) + |name| + |value|
  {
    TotalWithout(env[name := value], name);
    assert env[name := value] - {name} == env;
  }

  // ----- The env file -----

  predicate NotAfter(a: string, b: string) {
    a == b || Before(a, b)
  }

  lemma NotAfterIsTotal()
    ensures Total(NotAfter)
  {
    forall a, b ensures NotAfter(a, b) || NotAfter(b, a) {
      BeforeTotal(a, b);
    }
    forall a, b, c | NotAfter(a, b) && NotAfter(b, c) ensures NotAfter(a, c) {
      if a != b && b != c {
        BeforeTransitive(a, b, c);
      }
    }
  }

  function Render(names: seq<string>, env: Env): string
    requires forall n | n in names :: n in env
  {
    if names == [] then "" else names[0] + "=" + env[names[0]] + "\n" + Render(names[1..], env)
  }

  /** All the names, each once, in order. */
  ghost predicate SortedNames(names: seq<string>, env: Env) {
    Sorted(NotAfter, names) && multiset(names) == multiset(env.Keys)
  }

  lemma NamesAreKeys(names: seq<string>, env: Env)
    requires multiset(names) == multiset(env.Keys)
    ensures forall n :: n in names <==> n in env
  {
    forall n ensures n in names <==> n in env {
      assert n in names <==> n in multiset(names);
      assert n in multiset(env.Keys) <==> n in env.Keys;
    }
  }

  ghost predicate IsEnvFile(text: string, env: Env) {
    exists names: seq<string> ::
        SortedNames(names, env) && (forall n | n in names :: n in env) && text == Render(names, env)
  }

  /** The names as the map gives them out, then sorted. */
  method CollectNames(env: Env) returns (names: seq<string>)
    ensures SortedNames(names, env) && forall n | n in names :: n in env
  {
    names := [];
    var rest := env.Keys;
    while rest != {}
      invariant rest <= env.Keys && multiset(names) + multiset(rest) == multiset(env.Keys)
      decreases |rest|
    {
      var name :| name in rest;
      names := names + [name];
      rest := rest - {name};
    }
    NotAfterIsTotal();
    SortSorts(NotAfter, names);
    names := Sort(NotAfter, names);
    NamesAreKeys(names, env);
  }

  method ExecEnvFile(env: Env) returns (text: string)
    ensures IsEnvFile(text, env)
  {
    var names := CollectNames(env);
    text := "";
    for i := 0 to |names|
      invariant forall n | n in names :: n in env
      invariant text + Render(names[i..], env) == Render(names, env)
    {
      RenderStep(names, i, env, text);
      text := text + (names[i] + "=" + env[names[i]] + "\n");
    }
    assert text + "" == text;
  }

  lemma RenderStep(names: seq<string>, i: nat, env: Env, text: string)
    requires i < |names| && forall n | n in names :: n in env
    ensures text + Render(names[i..], env) ==
            text + (names[i] + "=" + env[names[i]] + "\n") + Render(names[i + 1..], env)
  {
    assert names[i..][1..] == names[i + 1..];
  }

  /** The text depends on the map alone. */
  lemma EnvFileUnique(env: Env, a: string, b: string)
    requires IsEnvFile(a, env) && IsEnvFile(b, env)
    ensures a == b
  {
    var xs: seq<string> :| SortedNames(xs, env) && (forall n | n in xs :: n in env) && a == Render(xs, env);
    var ys: seq<string> :| SortedNames(ys, env) && (forall n | n in ys :: n in env) && b == Render(ys, env);
    forall x, y | x in xs && y in xs && NotAfter(x, y) && NotAfter(y, x) ensures x == y {
      if x != y {
        BeforeTransitive(x, y, x);
        BeforeIrreflexive(x);
      }
    }
    OneSortedForm(NotAfter, xs, ys);
  }

  // ----- Reading it back -----

  /** A line ends at LF, and one CR before it belongs to the end. */
  function DropCr(line: string): string {
    if line != "" && line[|line| - 1] == '\r' then line[..|line| - 1] else line
  }

  function TrimLeft(s: string): string {
    if s != "" && (s[0] == ' ' || s[0] == '\t') then TrimLeft(s[1..]) else s
  }

  /** Blank lines and comments say nothing; a name ends at the first '='. */
  function ReadLine(raw: string): Env {
    var line := TrimLeft(DropCr(raw));
    if line == "" || line[0] == '#' || '=' !in line then map[]
    else
      var i := IndexOf(line, '=');
      map[line[..i] := line[i + 1..]]
  }

  function ReadLines(lines: seq<string>): Env {
    if lines == [] then map[] else ReadLine(lines[0]) + ReadLines(lines[1..])
  }

  function ReadEnvFile(text: string): Env {
    ReadLines(Split(text, '\n'))
  }

  function Pairs(names: seq<string>, env: Env): Env
    requires forall n | n in names :: n in env
  {
    map n | n in names :: DropCr(env[n])
  }

  lemma DropCrOfPair(head: string, value: string)
    requires head != "" && head[|head| - 1] == '='
    ensures DropCr(head + value) == head + DropCr(value)
  {
    if value != "" {
      assert (head + value)[|head + value| - 1] == value[|value| - 1];
    }
  }

  lemma FirstEquals(name: string, value: string)
    requires ValidName(name)
    ensures var line := name + "=" + value;
            '=' in line && IndexOf(line, '=') == |name| && line[..|name|] == name && line[|name| + 1..] == value
  {
    var line := name + "=" + value;
    assert line[|name|] == '=' && line[..|name|] == name;
    IndexOfUnique(line, '=', |name|);
  }

  lemma ReadPair(name: string, value: string)
    requires ValidName(name)
    ensures ReadLine(name + "=" + value) == map[name := DropCr(value)]
  {
    DropCrOfPair(name + "=", value);
    FirstEquals(name, DropCr(value));
    assert (name + "=" + DropCr(value))[0] == name[0];
  }

  lemma FirstPair(name: string, value: string, rest: string)
    requires ValidName(name) && '\n' !in value
    ensures ReadEnvFile(name + "=" + value + "\n" + rest) == map[name := DropCr(value)] + ReadEnvFile(rest)
  {
    var first, lines := name + "=" + value, Split(rest, '\n');
    SplitCons(first, rest, '\n');
    assert ([first] + lines)[1..] == lines;
    ReadPair(name, value);
  }

  lemma PairsCons(names: seq<string>, env: Env)
    requires names != [] && forall n | n in names :: n in env
    requires forall i, j | 0 <= i < j < |names| :: names[i] != names[j]
    ensures map[names[0] := DropCr(env[names[0]])] + Pairs(names[1..], env) == Pairs(names, env)
  {
    assert names == [names[0]] + names[1..];
  }

  lemma {:induction false} ReadRendered(names: seq<string>, env: Env)
    requires Sorted(NotAfter, names) && forall n | n in names :: n in env && ValidName(n) && '\n' !in env[n]
    requires forall i, j | 0 <= i < j < |names| :: names[i] != names[j]
    ensures ReadEnvFile(Render(names, env)) == Pairs(names, env)
  {
    if names == [] {
      assert Split("", '\n') == [""];
      assert [""][1..] == [];
    } else {
      assert names[0] in names;
      FirstPair(names[0], env[names[0]], Render(names[1..], env));
      ReadRendered(names[1..], env);
      PairsCons(names, env);
    }
  }

  lemma {:induction false} NoLineBreaks(lines: seq<string>, name: string)
    requires name in ReadLines(lines) && forall l | l in lines :: '\n' !in l
    ensures '\n' !in ReadLines(lines)[name]
  {
    if name in ReadLines(lines[1..]) {
      NoLineBreaks(lines[1..], name);
    } else {
      var line := DropCr(lines[0]);
      assert lines[0] in lines && forall c | c in line :: c in lines[0];
      TrimKeeps(line);
    }
  }

  lemma {:induction false} TrimKeeps(s: string)
    ensures forall c | c in TrimLeft(s) :: c in s
  {
    if s != "" && (s[0] == ' ' || s[0] == '\t') {
      TrimKeeps(s[1..]);
    }
  }

  lemma NamesDiffer(names: seq<string>, env: Env)
    requires multiset(names) == multiset(env.Keys)
    ensures forall i, j | 0 <= i < j < |names| :: names[i] != names[j]
  {
    forall i, j | 0 <= i < j < |names| ensures names[i] != names[j] {
      assert names == names[..j] + [names[j]] + names[j + 1..];
      assert names[i] in names[..j];
      assert multiset(env.Keys)[names[j]] <= 1;
      assert multiset(names)[names[j]] == multiset(names[..j])[names[j]] + 1 + multiset(names[j + 1..])[names[j]];
    }
  }

  /** The round trip, exactly: under valid names the file carries the environment if and
      only if no value breaks its line or ends in a carriage return. */
  lemma EnvFileIff(env: Env, text: string)
    requires IsEnvFile(text, env) && forall n | n in env :: ValidName(n)
    ensures ReadEnvFile(text) == env <==> forall n | n in env :: '\n' !in env[n] && DropCr(env[n]) == env[n]
  {
    if n :| n in env && '\n' in env[n] {
      if n in ReadEnvFile(text) {
        NoLineBreaks(Split(text, '\n'), n);
      }
    } else {
      ReadsStripped(env, text);
    }
  }

  /** Without line breaks the file carries every value, but for a CR at its end. */
  lemma ReadsStripped(env: Env, text: string)
    requires IsEnvFile(text, env) && forall n | n in env :: ValidName(n) && '\n' !in env[n]
    ensures ReadEnvFile(text) == map n | n in env :: DropCr(env[n])
  {
    var names: seq<string> :| SortedNames(names, env) && (forall n | n in names :: n in env)
        && text == Render(names, env);
    RenderReads(names, env);
  }

  lemma RenderReads(names: seq<string>, env: Env)
    requires SortedNames(names, env) && forall n | n in names :: n in env
    requires forall n | n in env :: ValidName(n) && '\n' !in env[n]
    ensures ReadEnvFile(Render(names, env)) == map n | n in env :: DropCr(env[n])
  {
    NamesAreKeys(names, env);
    NamesDiffer(names, env);
    ReadRendered(names, env);
  }

  /** What ValidateExecEnv accepts arrives intact. */
  lemma AcceptedArrives(env: Env, text: string)
    requires Accepted(env) && IsEnvFile(text, env)
    ensures ReadEnvFile(text) == env
  {
    forall n | n in env ensures DropCr(env[n]) == env[n] {
      assert ValidValue(env[n]);
    }
    EnvFileIff(env, text);
  }

  // ----- Quoting for the shell -----

  /** strings.ReplaceAll(s, "'", `'\''`) */
  function Escaped(s: string): string {
    if s == "" then "" else (if s[0] == '\'' then "'\\''" else [s[0]]) + Escaped(s[1..])
  }

  function ShellQuote(s: string): string {
    "'" + Escaped(s) + "'"
  }

  /** Characters that end a word. */
  predicate Delimiter(c: char) {
    c in " \t\n|&;<>()"
  }

  /** Characters with a meaning of their own outside quotes. */
  predicate Special(c: char) {
    c in "$`\"*?[#~=%{}!"
  }

  /** One word at the front of `s`, and what follows it, by sections 2.2.1 (escape
      character) and 2.2.2 (single-quotes) of the POSIX Shell Command Language; `None` for
      an open quote, a lone final backslash, and anything other rules deal with. */
  function Word(s: string, quoted: bool): Option<(string, string)> {
    if quoted then
      if s == "" then None
      else if s[0] == '\'' then Word(s[1..], false)
      else Ahead(s[0], Word(s[1..], true))
    else if s == "" || Delimiter(s[0]) then Some(("", s))
    else if s[0] == '\'' then Word(s[1..], true)
    else if s[0] == '\\' then
      if |s| == 1 then None
      else if s[1] == '\n' then Word(s[2..], false)
      else Ahead(s[1], Word(s[2..], false))
    else if Special(s[0]) then None
    else Ahead(s[0], Word(s[1..], false))
  }

  function Ahead(c: char, w: Option<(string, string)>): Option<(string, string)> {
    if w.None? then None else Some(([c] + w.value.0, w.value.1))
  }

  function Onto(s: string, w: Option<(string, string)>): Option<(string, string)> {
    if w.None? then None else Some((s + w.value.0, w.value.1))
  }

  lemma {:induction false} EscapedReads(s: string, rest: string)
    ensures Word(Escaped(s) + "'" + rest, true) == Onto(s, Word(rest, false))
  {
    if s == "" {
      QuoteEnds(rest);
    } else {
      EscapedReads(s[1..], rest);
      OntoCons(s, Word(rest, false));
      NextEscaped(s, rest);
    }
  }

  lemma QuoteEnds(rest: string)
    ensures Word("" + "'" + rest, true) == Onto("", Word(rest, false))
  {
    assert "" + "'" + rest == "'" + rest;
    assert ("'" + rest)[1..] == rest;
    assert Word(rest, false).Some? ==> "" + Word(rest, false).value.0 == Word(rest, false).value.0;
  }

  /** The first character of a quoted string, read. */
  lemma NextEscaped(s: string, rest: string)
    requires s != ""
    ensures Word(Escaped(s) + "'" + rest, true) == Ahead(s[0], Word(Escaped(s[1..]) + "'" + rest, true))
  {
    var tail := Escaped(s[1..]) + "'" + rest;
    if s[0] == '\'' {
      assert Escaped(s) + "'" + rest == "'\\''" + tail;
      QuoteInside(tail);
    } else {
      assert Escaped(s) + "'" + rest == [s[0]] + tail;
      PlainInside(s[0], tail);
    }
  }

  lemma OntoCons(s: string, w: Option<(string, string)>)
    requires s != ""
    ensures Ahead(s[0], Onto(s[1..], w)) == Onto(s, w)
  {
    if w.Some? {
      assert [s[0]] + (s[1..] + w.value.0) == s + w.value.0;
    }
  }

  lemma PlainInside(c: char, tail: string)
    requires c != '\''
    ensures Word([c] + tail, true) == Ahead(c, Word(tail, true))
  {
    assert ([c] + tail)[1..] == tail;
  }

  lemma QuoteInside(tail: string)
    ensures Word("'\\''" + tail, true) == Ahead('\'', Word(tail, true))
  {
    var a, b, c := "'\\''" + tail, "\\''" + tail, "'" + tail;
    assert a[1..] == b && b[2..] == c && c[1..] == tail;
    assert Word(c, false) == Word(tail, true);
    assert Word(b, false) == Ahead('\'', Word(c, false));
    assert Word(a, true) == Word(b, false);
  }

  /** A quoted string followed by the end of a word is that one word, whatever it holds. */
  lemma QuoteRoundTrip(s: string, rest: string)
    requires rest == "" || Delimiter(rest[0])
    ensures Word(ShellQuote(s) + rest, false) == Some((s, rest))
  {
    assert ShellQuote(s) + rest == "'" + (Escaped(s) + "'" + rest);
    assert ("'" + (Escaped(s) + "'" + rest))[1..] == Escaped(s) + "'" + rest;
    EscapedReads(s, rest);
    assert s + "" == s;
  }
}
