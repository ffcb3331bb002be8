/**
 Building the remote command line, held against a lexer for the quoting rules of
 section 2.2 and the operators of section 2.3 of the POSIX Shell Command Language
 (IEEE Std 1003.1). The lexer gives no answer as soon as the shell would do more
 than split words, so a list of words back means nothing was expanded.
 */
module ShellCommand {
  import opened Wrappers

  // The shell's side.

  /** A word, its quotes removed; of one that had any, what stood before the first. */
  datatype Part = Bare(text: string) | Quoted(text: string, before: string)

  datatype Token = Word(part: Part) | AndIf | Operator(symbol: char)

  datatype Mode = Unquoted | SingleQuoted | DoubleQuoted

  predicate IsBlank(c: char) {
    c == ' ' || c == '\t'
  }

  predicate IsOperator(c: char) {
    c == '|' || c == '&' || c == ';' || c == '<' || c == '>' || c == '(' || c == ')' || c == '\n'
  }

  /** Unquoted, these start an expansion or a pattern, wherever they stand. */
  predicate IsSpecial(c: char) {
    c == '$' || c == '`' || c == '*' || c == '?' || c == '[' || c == '{' || c == '}' || c == '!'
  }

  /** The word read so far, if one has begun, becomes a token. */
  function Close(word: Option<Part>): seq<Token> {
    match word case None => [] case Some(w) => [Word(w)]
  }

  function Extend(word: Option<Part>, s: string): Option<Part> {
    match word case None => Some(Bare(s)) case Some(w) => Some(w.(text := w.text + s))
  }

  /** A quote begins or goes on a word, even when nothing is between the quotes. */
  function Quote(word: Option<Part>): Option<Part> {
    match word
    case None => Some(Quoted("", ""))
    case Some(Bare(t)) => Some(Quoted(t, t))
    case Some(Quoted(_, _)) => word
  }

  function Then(ts: seq<Token>, rest: Option<seq<Token>>): Option<seq<Token>> {
    match rest case None => None case Some(more) => Some(ts + more)
  }

  /** Letters, digits and the underscore, by their codes in the portable character set. */
  predicate IsNameCode(code: int) {
    65 <= code <= 90 || 97 <= code <= 122 || 48 <= code <= 57 || code == 95
  }

  /** A name as the Base Definitions of IEEE Std 1003.1 have it: such characters, the first no digit. */
  predicate IsShellName(s: string) {
    && s != "" && !(48 <= s[0] as int <= 57)
    && forall i :: 0 <= i < |s| ==> IsNameCode(s[i] as int)
  }

  function Lex(s: string, mode: Mode, word: Option<Part>): Option<seq<Token>>
    decreases |s|
  {
    match mode
    case SingleQuoted =>
      if s == "" then None
      else if s[0] == '\'' then Lex(s[1..], Unquoted, word)
      else Lex(s[1..], SingleQuoted, Extend(word, [s[0]]))
    case DoubleQuoted =>
      if s == "" then None
      else if s[0] == '"' then Lex(s[1..], Unquoted, word)
      else if s[0] == '$' || s[0] == '`' then None
      else if s[0] == '\\' then
        if |s| == 1 then None
        else if s[1] == '$' || s[1] == '`' || s[1] == '"' || s[1] == '\\' then Lex(s[2..], DoubleQuoted, Extend(word, [s[1]]))
        else if s[1] == '\n' then Lex(s[2..], DoubleQuoted, word)
        else Lex(s[1..], DoubleQuoted, Extend(word, [s[0]]))
      else Lex(s[1..], DoubleQuoted, Extend(word, [s[0]]))
    case Unquoted =>
      if s == "" then Some(Close(word))
      else if s[0] == '\'' then Lex(s[1..], SingleQuoted, Quote(word))
      else if s[0] == '"' then Lex(s[1..], DoubleQuoted, Quote(word))
      else if s[0] == '\\' then
        if |s| == 1 then None
        else if s[1] == '\n' then Lex(s[2..], Unquoted, word)
        else Lex(s[2..], Unquoted, Extend(Quote(word), [s[1]]))
      else if IsBlank(s[0]) then Then(Close(word), Lex(s[1..], Unquoted, None))
      else if |s| > 1 && s[0] == '&' && s[1] == '&' then Then(Close(word) + [AndIf], Lex(s[2..], Unquoted, None))
      else if IsOperator(s[0]) then Then(Close(word) + [Operator(s[0])], Lex(s[1..], Unquoted, None))
      else if IsSpecial(s[0]) || (word == None && (s[0] == '#' || s[0] == '~')) then None
      else Lex(s[1..], Unquoted, Extend(word, [s[0]]))
  }

  /** The tokens of a command line. */
  function Tokens(s: string): Option<seq<Token>> {
    Lex(s, Unquoted, None)
  }

  // Quoting.

  predicate IsSafe(c: char) {
    || 'A' <= c <= 'Z' || 'a' <= c <= 'z' || '0' <= c <= '9'
    || c == '_' || c == '.' || c == '/' || c == ':' || c == '=' || c == '@' || c == '%' || c == '^'
    || c == ',' || c == '+' || c == '-'
  }

  /** Safe are the characters of names and ten more. */
  lemma SafeCharacters(c: char)
    ensures IsSafe(c) <==> IsNameCode(c as int) || c in "./:=@%^,+-"
  {
  }

  /** arg with every ' replaced by '"'"'. */
  function Escaped(arg: string): string {
    if arg == "" then "" else (if arg[0] == '\'' then "'\"'\"'" else [arg[0]]) + Escaped(arg[1..])
  }

  function ShellQuote(arg: string): string {
    if arg == "" then "''"
    else if forall i :: 0 <= i < |arg| ==> IsSafe(arg[i]) then arg
    else "'" + Escaped(arg) + "'"
  }

  lemma {:induction false} LexSafe(arg: string, rest: string, word: Option<Part>)
    requires arg != "" && forall i :: 0 <= i < |arg| ==> IsSafe(arg[i])
    ensures Lex(arg + rest, Unquoted, word) == Lex(rest, Unquoted, Extend(word, arg))
    decreases |arg|
  {
    hide Lex, IsSafe, Extend;
    var c, more := arg[0], arg[1..];
    assert IsSafe(c);
    assert (arg + rest)[1..] == more + rest;
    SafeIsOrdinary(arg + rest, word);
    if more == "" {
      assert arg == [c] && more + rest == rest;
    } else {
      LexSafe(more, rest, Extend(word, [c]));
      ExtendTwice(word, [c], more);
      assert [c] + more == arg;
    }
  }

  lemma ExtendTwice(word: Option<Part>, s: string, t: string)
    ensures Extend(Extend(word, s), t) == Extend(word, s + t)
  {
    match word
    case None =>
    case Some(w) => assert w.text + s + t == w.text + (s + t);
  }

  lemma SafeMeansNothing(c: char)
    requires IsSafe(c)
    ensures !IsBlank(c) && !IsOperator(c) && !IsSpecial(c)
    ensures c != '\'' && c != '"' && c != '\\' && c != '&' && c != '#' && c != '~'
  {
  }

  lemma SafeIsOrdinary(s: string, word: Option<Part>)
    requires s != "" && IsSafe(s[0])
    ensures Lex(s, Unquoted, word) == Lex(s[1..], Unquoted, Extend(word, [s[0]]))
  {
    hide IsSafe, IsBlank, IsOperator, IsSpecial;
    SafeMeansNothing(s[0]);
  }

  /** Inside single quotes the escaped text reads as the text itself. */
  lemma {:induction false} LexEscaped(arg: string, rest: string, w: Part)
    requires w.Quoted?
    ensures Lex(Escaped(arg) + "'" + rest, SingleQuoted, Some(w)) == Lex(rest, Unquoted, Extend(Some(w), arg))
    decreases |arg|
  {
    hide Lex;
    if arg == "" {
      assert Escaped(arg) + "'" + rest == "'" + rest && w.text + arg == w.text;
      SingleCloses(rest, Some(w));
    } else {
      var t := Escaped(arg[1..]) + "'" + rest;
      var more := w.(text := w.text + [arg[0]]);
      assert more.text + arg[1..] == w.text + arg;
      LexEscaped(arg[1..], rest, more);
      if arg[0] == '\'' {
        assert Escaped(arg) + "'" + rest == "'\"'\"'" + t;
        LexQuotedQuote(t, w);
      } else {
        assert Escaped(arg) + "'" + rest == [arg[0]] + t;
        SingleGoesOn(arg[0], t, Some(w));
      }
    }
  }

  lemma SingleGoesOn(c: char, rest: string, word: Option<Part>)
    requires c != '\''
    ensures Lex([c] + rest, SingleQuoted, word) == Lex(rest, SingleQuoted, Extend(word, [c]))
  {
    assert ([c] + rest)[1..] == rest;
  }

  /** Leaving the quotes, a double-quoted ', and entering them again. */
  lemma LexQuotedQuote(t: string, w: Part)
    requires w.Quoted?
    ensures Lex("'\"'\"'" + t, SingleQuoted, Some(w)) == Lex(t, SingleQuoted, Extend(Some(w), "'"))
  {
    hide Lex;
    var s1, s2, s3, s4 := "\"'\"'" + t, "'\"'" + t, "\"'" + t, "'" + t;
    assert "'\"'\"'" + t == "'" + s1 && s1 == "\"" + s2 && s2 == "'" + s3 && s3 == "\"" + s4;
    SingleCloses(s1, Some(w));
    DoubleOpens(s2, Some(w));
    DoubleGoesOn(s3, Some(w));
    DoubleCloses(s4, Extend(Some(w), "'"));
    QuoteOpens(t, Extend(Some(w), "'"));
  }

  lemma SingleCloses(rest: string, word: Option<Part>)
    ensures Lex("'" + rest, SingleQuoted, word) == Lex(rest, Unquoted, word)
  {
    assert ("'" + rest)[1..] == rest;
  }

  lemma DoubleOpens(rest: string, word: Option<Part>)
    ensures Lex("\"" + rest, Unquoted, word) == Lex(rest, DoubleQuoted, Quote(word))
  {
    assert ("\"" + rest)[1..] == rest;
  }

  lemma DoubleGoesOn(rest: string, word: Option<Part>)
    ensures Lex("'" + rest, DoubleQuoted, word) == Lex(rest, DoubleQuoted, Extend(word, "'"))
  {
    assert ("'" + rest)[1..] == rest;
  }

  lemma DoubleCloses(rest: string, word: Option<Part>)
    ensures Lex("\"" + rest, DoubleQuoted, word) == Lex(rest, Unquoted, word)
  {
    assert ("\"" + rest)[1..] == rest;
  }

  lemma QuoteOpens(rest: string, word: Option<Part>)
    ensures Lex("'" + rest, Unquoted, word) == Lex(rest, SingleQuoted, Quote(word))
    ensures Lex("''" + rest, Unquoted, word) == Lex(rest, Unquoted, Extend(Quote(word), ""))
  {
    assert ("'" + rest)[1..] == rest;
    assert ("''" + rest)[1..] == "'" + rest;
    assert Quote(word).value.text + "" == Quote(word).value.text;
  }

  /** Safe arguments stay as they are, all others are put in quotes. */
  predicate IsPlain(arg: string) {
    arg != "" && forall i :: 0 <= i < |arg| ==> IsSafe(arg[i])
  }

  /** For every string, whatever stands around it: the quoted form adds exactly that string to the word. */
  lemma LexQuoted(arg: string, rest: string, word: Option<Part>)
    ensures Lex(ShellQuote(arg) + rest, Unquoted, word) ==
      Lex(rest, Unquoted, Extend(if IsPlain(arg) then word else Quote(word), arg))
  {
    hide Lex, IsSafe, Escaped;
    if arg == "" {
      QuoteOpens(rest, word);
    } else if IsPlain(arg) {
      LexSafe(arg, rest, word);
    } else {
      var inner := Escaped(arg) + "'" + rest;
      assert ShellQuote(arg) + rest == "'" + inner;
      QuoteOpens(inner, word);
      LexEscaped(arg, rest, Quote(word).value);
    }
  }

  // The command.

  datatype Result = Ok(command: string) | InvalidName(key: string)

  predicate IsNameStart(c: char) {
    'A' <= c <= 'Z' || 'a' <= c <= 'z' || c == '_'
  }

  predicate IsName(key: string) {
    && key != "" && IsNameStart(key[0])
    && forall i :: 0 <= i < |key| ==> IsNameStart(key[i]) || '0' <= key[i] <= '9'
  }

  /** The names let through are the shell's. */
  lemma NamesAgree(key: string)
    ensures IsName(key) <==> IsShellName(key)
  {
  }

  /** parts.join(' ') */
  function JoinSpaces(parts: seq<string>): string {
    if parts == [] then "" else if |parts| == 1 then parts[0] else parts[0] + " " + JoinSpaces(parts[1..])
  }

  function Words(ps: seq<Part>): seq<Token> {
    seq(|ps|, i requires 0 <= i < |ps| => Word(ps[i]))
  }

  /** How the shell is to see an argument: its text, quoted unless it is plain. */
  function Argument(arg: string): Part {
    if IsPlain(arg) then Bare(arg) else Quoted(arg, "")
  }

  function Arguments(args: seq<string>): seq<Part> {
    seq(|args|, i requires 0 <= i < |args| => Argument(args[i]))
  }

  /** Name and value of an entry in one word, at most the value being quoted. */
  function Assignment(key: string, value: string): Part {
    var text := key + "=" + value;
    if IsPlain(value) then Bare(text) else Quoted(text, key + "=")
  }

  function Assignments(env: seq<(string, string)>): seq<Part> {
    seq(|env|, i requires 0 <= i < |env| => Assignment(env[i].0, env[i].1))
  }

  ghost predicate LexesTo(s: string, w: Part) {
    forall rest :: Lex(s + rest, Unquoted, None) == Lex(rest, Unquoted, Some(w))
  }

  lemma QuotedLexes(arg: string)
    ensures LexesTo(ShellQuote(arg), Argument(arg))
  {
    forall rest ensures Lex(ShellQuote(arg) + rest, Unquoted, None) == Lex(rest, Unquoted, Some(Argument(arg))) {
      LexQuoted(arg, rest, None);
      assert "" + arg == arg;
    }
  }

  lemma AssignmentLexes(key: string, value: string)
    requires IsName(key)
    ensures LexesTo(key + "=" + ShellQuote(value), Assignment(key, value))
  {
    hide ShellQuote, IsPlain, Lex;
    forall rest
      ensures Lex(key + "=" + ShellQuote(value) + rest, Unquoted, None) ==
        Lex(rest, Unquoted, Some(Assignment(key, value)))
    {
      var prefix := key + "=";
      assert prefix + ShellQuote(value) + rest == prefix + (ShellQuote(value) + rest);
      assert forall i :: 0 <= i < |prefix| ==> IsSafe(prefix[i]);
      LexSafe(prefix, ShellQuote(value) + rest, None);
      LexQuoted(value, rest, Some(Bare(prefix)));
    }
  }

  lemma BlankEndsWord(rest: string, word: Option<Part>)
    ensures Lex(" " + rest, Unquoted, word) == Then(Close(word), Tokens(rest))
  {
    assert (" " + rest)[1..] == rest;
  }

  lemma LineEndsWord(word: Part)
    ensures Lex("", Unquoted, Some(word)) == Some([Word(word)])
  {
  }

  lemma AndIfIsToken(rest: string)
    ensures Tokens("&& " + rest) == Then([AndIf], Tokens(" " + rest))
  {
    assert ("&& " + rest)[2..] == " " + rest;
    assert Close(None) + [AndIf] == [AndIf];
  }

  /** Words joined by blanks read back as those words, with a blank or nothing after them. */
  lemma {:induction false} JoinedLexes(parts: seq<string>, ws: seq<Part>, rest: string)
    requires |parts| == |ws| && parts != [] && forall i :: 0 <= i < |parts| ==> LexesTo(parts[i], ws[i])
    ensures Tokens(JoinSpaces(parts)) == Some(Words(ws))
    ensures Tokens(JoinSpaces(parts) + " " + rest) == Then(Words(ws), Tokens(rest))
    decreases |parts|
  {
    hide Lex;
    assert LexesTo(parts[0], ws[0]);
    assert Words(ws) == [Word(ws[0])] + Words(ws[1..]);
    if |parts| == 1 {
      assert parts[0] + "" == parts[0] && Words(ws) == [Word(ws[0])];
      LineEndsWord(ws[0]);
      assert Tokens(parts[0] + "") == Lex("", Unquoted, Some(ws[0]));
      assert parts[0] + " " + rest == parts[0] + (" " + rest);
      BlankEndsWord(rest, Some(ws[0]));
    } else {
      var more := JoinSpaces(parts[1..]);
      assert forall i :: 0 <= i < |parts[1..]| ==> LexesTo(parts[1..][i], ws[1..][i]) by {
        assert forall i :: 0 <= i < |parts[1..]| ==> parts[1..][i] == parts[i + 1] && ws[1..][i] == ws[i + 1];
      }
      JoinedLexes(parts[1..], ws[1..], rest);
      assert JoinSpaces(parts) == parts[0] + (" " + more);
      BlankEndsWord(more, Some(ws[0]));
      assert JoinSpaces(parts) + " " + rest == parts[0] + (" " + (more + " " + rest));
      BlankEndsWord(more + " " + rest, Some(ws[0]));
      if Tokens(rest).Some? {
        assert [Word(ws[0])] + (Words(ws[1..]) + Tokens(rest).value) == Words(ws) + Tokens(rest).value;
      }
    }
  }

  /** What the remote shell is meant to read: cd, the directory and && when there is one, the assignments, the arguments. */
  function Meant(args: seq<string>, cwd: string, env: seq<(string, string)>): seq<Token> {
    (if cwd == "" then [] else [Word(Bare("cd")), Word(Argument(cwd)), AndIf])
    + Words(Assignments(env)) + Words(Arguments(args))
  }

  lemma CdLexes(cwd: string, command: string)
    ensures Tokens("cd " + ShellQuote(cwd) + " && " + command) ==
      Then([Word(Bare("cd")), Word(Argument(cwd)), AndIf], Tokens(command))
  {
    hide Lex, ShellQuote;
    var q := ShellQuote(cwd);
    var s := "cd " + q + " && " + command;
    var t := " && " + command;
    assert s == "cd" + (" " + (q + t));
    LexSafe("cd", " " + (q + t), None);
    BlankEndsWord(q + t, Some(Bare("cd")));
    LexQuoted(cwd, t, None);
    assert "" + cwd == cwd;
    assert t == " " + ("&& " + command);
    BlankEndsWord("&& " + command, Some(Argument(cwd)));
    AndIfIsToken(command);
    BlankEndsWord(command, None);
    if Tokens(command).Some? {
      var more := Tokens(command).value;
      assert [] + more == more;
      assert [Word(Bare("cd"))] + ([Word(Argument(cwd))] + ([AndIf] + more)) == [Word(Bare("cd")), Word(Argument(cwd)), AndIf] + more;
    }
  }

  // Which word is the command.

  /** Section 2.10.2: an unquoted = after an unquoted name makes an assignment. */
  predicate IsAssignment(p: Part) {
    AssignsName(if p.Bare? then p.text else p.before)
  }

  predicate AssignsName(bare: string) {
    exists i :: 0 <= i < |bare| && bare[i] == '=' && IsShellName(bare[..i])
  }

  /** Section 2.4, as far as the words can be written without special characters. */
  const ReservedWords: set<string> := {
    "if", "then", "else", "elif", "fi", "do", "done", "case", "esac", "while", "until", "for", "in"
  }

  predicate IsReserved(p: Part) {
    p.Bare? && p.text in ReservedWords
  }

  /** The words before the command of a simple command. */
  function LeadingAssignments(ps: seq<Part>): nat {
    if ps == [] || !IsAssignment(ps[0]) then 0 else 1 + LeadingAssignments(ps[1..])
  }

  /** Word k names the command: only assignments stand before it, and it starts no compound command. */
  predicate IsCommandWord(ps: seq<Part>, k: nat) {
    k < |ps| && LeadingAssignments(ps) == k && !(k == 0 && IsReserved(ps[0]))
  }

  /** An argument the shell takes for an assignment. */
  predicate LooksAssigned(arg: string) {
    IsPlain(arg) && AssignsName(arg)
  }

  lemma EntriesAssign(key: string, value: string)
    requires IsShellName(key)
    ensures IsAssignment(Assignment(key, value))
  {
    var before := if IsPlain(value) then key + "=" + value else key + "=";
    assert before[|key|] == '=' && before[..|key|] == key;
  }

  lemma {:induction false} EntriesLead(env: seq<(string, string)>, args: seq<string>)
    requires forall i :: 0 <= i < |env| ==> IsShellName(env[i].0)
    ensures var ps := Assignments(env) + Arguments(args);
      LeadingAssignments(ps) >= |env|
      && (LeadingAssignments(ps) == |env| <==> args == [] || !IsAssignment(Argument(args[0])))
    decreases |env|
  {
    hide IsAssignment, Assignment, Argument, IsShellName;
    var ps := Assignments(env) + Arguments(args);
    if env == [] {
      assert ps == Arguments(args);
    } else {
      EntriesAssign(env[0].0, env[0].1);
      EntriesLead(env[1..], args);
      assert ps[1..] == Assignments(env[1..]) + Arguments(args);
    }
  }

  /**
   The first argument is the command the shell looks up, all entries of the environment
   being assigned before it, exactly when it is no assignment by its own looks and,
   standing first, no reserved word. Arguments that need quotes always qualify.
   */
  lemma FirstArgumentIsCommand(env: seq<(string, string)>, args: seq<string>)
    requires args != [] && forall i :: 0 <= i < |env| ==> IsShellName(env[i].0)
    ensures IsCommandWord(Assignments(env) + Arguments(args), |env|)
       <==> !LooksAssigned(args[0]) && !(env == [] && IsPlain(args[0]) && args[0] in ReservedWords)
  {
    hide IsPlain, IsShellName;
    EntriesLead(env, args);
    var ps := Assignments(env) + Arguments(args);
    assert ps[|env|] == Argument(args[0]);
  }

  // The method.

  /** Entry i is the first whose name is not a shell variable name. */
  ghost predicate IsFirstBadName(env: seq<(string, string)>, i: nat, key: string)
    requires i < |env|
  {
    env[i].0 == key && !IsShellName(key) && forall j :: 0 <= j < i ==> IsShellName(env[j].0)
  }

  method BuildExecCommand(args: seq<string>, cwd: string, env: Option<seq<(string, string)>>) returns (r: Result)
    ensures r.Ok? <==> env == None || forall i :: 0 <= i < |env.value| ==> IsShellName(env.value[i].0)
    ensures r.Ok? ==> Tokens(r.command) == Some(Meant(args, cwd, if env == None then [] else env.value))
    ensures r.InvalidName? ==> exists i :: 0 <= i < |env.value| && IsFirstBadName(env.value, i, r.key)
  {
    hide Lex, ShellQuote, LexesTo, IsName, IsShellName, Tokens, JoinSpaces, Meant;
    var quoted := seq(|args|, i requires 0 <= i < |args| => ShellQuote(args[i]));
    var command := JoinSpaces(quoted);
    ArgumentsLex(args, quoted);
    ghost var entries := if env == None then [] else env.value;
    ghost var read := Words(Arguments(args));

    if env != None {
      var assignments: seq<string> := [];
      for n := 0 to |env.value|
        invariant |assignments| == n
        invariant forall i :: 0 <= i < n ==> IsShellName(env.value[i].0)
        invariant forall i :: 0 <= i < n ==> LexesTo(assignments[i], Assignments(entries)[i])
      {
        var (key, value) := env.value[n];
        NamesAgree(key);
        if !IsName(key) {
          assert IsFirstBadName(env.value, n, key);
          return InvalidName(key);
        }
        AssignmentLexes(key, value);
        assignments := assignments + [key + "=" + ShellQuote(value)];
      }
      if |assignments| > 0 {
        JoinedLexes(assignments, Assignments(entries), command);
        command := JoinSpaces(assignments) + " " + command;
        read := Words(Assignments(entries)) + read;
      }
    }

    MeantIs(args, cwd, entries);
    if cwd != "" {
      CdLexes(cwd, command);
      command := "cd " + ShellQuote(cwd) + " && " + command;
    }
    return Ok(command);
  }

  lemma MeantIs(args: seq<string>, cwd: string, env: seq<(string, string)>)
    ensures var read := if env == [] then Words(Arguments(args)) else Words(Assignments(env)) + Words(Arguments(args));
      Meant(args, cwd, env) == if cwd == "" then read else [Word(Bare("cd")), Word(Argument(cwd)), AndIf] + read
  {
    var read := if env == [] then Words(Arguments(args)) else Words(Assignments(env)) + Words(Arguments(args));
    assert Words(Assignments(env)) + Words(Arguments(args)) == read;
    if cwd == "" {
      assert [] + Words(Assignments(env)) == Words(Assignments(env));
    } else {
      var cd := [Word(Bare("cd")), Word(Argument(cwd)), AndIf];
      assert cd + Words(Assignments(env)) + Words(Arguments(args)) == cd + (Words(Assignments(env)) + Words(Arguments(args)));
    }
  }

  lemma ArgumentsLex(args: seq<string>, quoted: seq<string>)
    requires |quoted| == |args| && forall i :: 0 <= i < |args| ==> quoted[i] == ShellQuote(args[i])
    ensures Tokens(JoinSpaces(quoted)) == Some(Words(Arguments(args)))
    ensures Words([]) + Words(Arguments(args)) == Words(Arguments(args))
  {
    if args != [] {
      forall i | 0 <= i < |args| ensures LexesTo(quoted[i], Arguments(args)[i]) {
        QuotedLexes(args[i]);
      }
      JoinedLexes(quoted, Arguments(args), "");
    }
  }
}
