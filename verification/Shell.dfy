/**
 The shell's grammar: tokens, command trees, the parser as functions over what is left of
 the line, and a printer that the parser inverts.
 */
module Shell {

  const MAXARGS: nat := 10

  datatype Mode = In | Out                     // `<`; `>` and `>>` alike
  datatype Redirection = Redirection(file: string, mode: Mode)
  datatype Cmd =
    | Exec(argv: seq<string>)
    | Redir(cmd: Cmd, to: Redirection)
    | Pipe(left: Cmd, right: Cmd)
    | List(left: Cmd, right: Cmd)
    | Back(cmd: Cmd)

  /** A value and the rest of the line, or the source's panic. */
  datatype Parsed<+T> = Ok(value: T, rest: string) | Panic

  // -------------------------------------------------------------- tokens

  predicate IsSpace(c: char) { c == ' ' || c == '\t' || c == '\r' || c == '\n' || c == '\U{000B}' }

  predicate IsSymbol(c: char) { c in "<|>&;()" }

  predicate IsPlain(c: char) { !IsSpace(c) && !IsSymbol(c) }

  function Skip(s: string): (r: string)
    ensures |r| <= |s| && (r != "" ==> !IsSpace(r[0]))
  {
    if s != "" && IsSpace(s[0]) then Skip(s[1..]) else s
  }

  /** Length of the word at the start of s. */
  function WordLength(s: string): (n: nat)
    ensures n <= |s| && (n < |s| ==> !IsPlain(s[n])) && forall i :: 0 <= i < n ==> IsPlain(s[i])
  {
    if s != "" && IsPlain(s[0]) then 1 + WordLength(s[1..]) else 0
  }

  /** Whether the next token starts with one of `toks`. */
  predicate Peek(s: string, toks: string) {
    Skip(s) != "" && Skip(s)[0] in toks
  }

  /** Kinds of tokens: 0 at the end, 'a' for a word, '+' for `>>`, otherwise the symbol. */
  datatype Token = Token(kind: char, text: string, rest: string)

  function NextToken(s: string): (t: Token)
    ensures |t.rest| <= |s|
    ensures Skip(s) != "" ==> |t.rest| < |s|
    ensures t.kind == 'a' ==> t.text != "" && forall i :: 0 <= i < |t.text| ==> IsPlain(t.text[i])
  {
    var t := Skip(s);
    if t == "" then Token('\0', "", "")
    else if t[0] in "|();&<" then Token(t[0], t[..1], Skip(t[1..]))
    else if t[0] == '>' then
      if |t| > 1 && t[1] == '>' then Token('+', t[..2], Skip(t[2..])) else Token('>', t[..1], Skip(t[1..]))
    else
      var n := WordLength(t);
      Token('a', t[..n], Skip(t[n..]))
  }

  // -------------------------------------------------------------- parser

  function Wrap(c: Cmd, rs: seq<Redirection>): Cmd {
    if rs == [] then c else Redir(Wrap(c, rs[..|rs| - 1]), rs[|rs| - 1])
  }

  function ModeOf(kind: char): Mode {
    if kind == '<' then In else Out
  }

  /** `parseredirs`, collecting the redirections. */
  function Redirs(s: string): (p: Parsed<seq<Redirection>>)
    ensures p.Ok? ==> |p.rest| <= |s|
    decreases |s|
  {
    if !Peek(s, "<>") then Ok([], Skip(s))
    else
      var op := NextToken(s);
      var file := NextToken(op.rest);
      if file.kind != 'a' then Panic
      else match Redirs(file.rest)
        case Ok(rs, rest) => Ok([Redirection(file.text, ModeOf(op.kind))] + rs, rest)
        case Panic => Panic
  }

  /** The loop of `parseexec`: words and redirections up to a separator. */
  function Words(argv: seq<string>, rs: seq<Redirection>, s: string): (p: Parsed<Cmd>)
    ensures p.Ok? ==> |p.rest| <= |s|
    decreases |s|
  {
    if Peek(s, "|)&;") then Ok(Wrap(Exec(argv), rs), Skip(s))
    else
      var t := NextToken(s);
      if t.kind == '\0' then Ok(Wrap(Exec(argv), rs), t.rest)
      else if t.kind != 'a' then Panic
      else if |argv| + 1 >= MAXARGS then Panic
      else match Redirs(t.rest)
        case Ok(more, rest) => Words(argv + [t.text], rs + more, rest)
        case Panic => Panic
  }

  function ParseLine(s: string): (p: Parsed<Cmd>)
    ensures p.Ok? ==> |p.rest| <= |s|
    decreases |s|, 4
  {
    match ParsePipe(s)
    case Panic => Panic
    case Ok(c, rest) => AfterPipe(c, rest)
  }

  /** `&`s and a `;` after a pipeline. */
  function AfterPipe(c: Cmd, s: string): (p: Parsed<Cmd>)
    ensures p.Ok? ==> |p.rest| <= |s|
    decreases |s|, 3
  {
    if Peek(s, "&") then AfterPipe(Back(c), NextToken(s).rest)
    else if Peek(s, ";") then
      match ParseLine(NextToken(s).rest)
      case Ok(d, rest) => Ok(List(c, d), rest)
      case Panic => Panic
    else Ok(c, Skip(s))
  }

  function ParsePipe(s: string): (p: Parsed<Cmd>)
    ensures p.Ok? ==> |p.rest| <= |s|
    decreases |s|, 2
  {
    match ParseExec(s)
    case Panic => Panic
    case Ok(c, rest) =>
      if Peek(rest, "|") then
        match ParsePipe(NextToken(rest).rest)
        case Ok(d, rest') => Ok(Pipe(c, d), rest')
        case Panic => Panic
      else Ok(c, Skip(rest))
  }

  function ParseExec(s: string): (p: Parsed<Cmd>)
    ensures p.Ok? ==> |p.rest| <= |s|
    decreases |s|, 1
  {
    if Peek(s, "(") then ParseBlock(s)
    else match Redirs(s)
      case Ok(rs, rest) => Words([], rs, rest)
      case Panic => Panic
  }

  function ParseBlock(s: string): (p: Parsed<Cmd>)
    ensures p.Ok? ==> |p.rest| <= |s|
    decreases |s|, 0
  {
    if !Peek(s, "(") then Panic
    else match ParseLine(NextToken(s).rest)
      case Panic => Panic
      case Ok(c, rest) =>
        if !Peek(rest, ")") then Panic
        else match Redirs(NextToken(rest).rest)
          case Ok(rs, rest') => Ok(Wrap(c, rs), rest')
          case Panic => Panic
  }

  /** `parsecmd`: nothing may be left over. */
  function ParseCmd(s: string): Parsed<Cmd> {
    match ParseLine(s)
    case Ok(c, rest) => if Skip(rest) == "" then Ok(c, "") else Panic
    case Panic => Panic
  }

  // ------------------------------------------------------------- printer

  /** The command under the redirections, and those redirections. */
  function Base(c: Cmd): (b: Cmd)
    ensures !b.Redir? && (c.Redir? ==> b < c) && (!c.Redir? ==> b == c)
  {
    if c.Redir? then Base(c.cmd) else c
  }

  function Chain(c: Cmd): seq<Redirection> {
    if c.Redir? then Chain(c.cmd) + [c.to] else []
  }

  function ShowWords(argv: seq<string>): string {
    if argv == [] then "" else " " + argv[0] + ShowWords(argv[1..])
  }

  function ShowRedirs(rs: seq<Redirection>): string {
    if rs == [] then "" else (if rs[0].mode == In then " < " else " > ") + rs[0].file + ShowRedirs(rs[1..])
  }

  function ShowExec(c: Cmd): string
    decreases c, 10
  {
    var b := Base(c);
    (if b.Exec? then ShowWords(b.argv) else "(" + ShowLine(b) + ")") + ShowRedirs(Chain(c))
  }

  function ShowPipe(c: Cmd): string
    decreases c, if c.Pipe? then 1 else 11
  {
    if c.Pipe? then ShowExec(c.left) + "|" + ShowPipe(c.right) else ShowExec(c)
  }

  function ShowBack(c: Cmd): string
    decreases c, if c.Back? || c.Pipe? then 2 else 12
  {
    if c.Back? then ShowBack(c.cmd) + "&" else ShowPipe(c)
  }

  /** A line that parses to c; parentheses only where the grammar needs them. */
  function ShowLine(c: Cmd): string
    decreases c, if c.Exec? || c.Redir? then 13 else 3
  {
    if c.List? then ShowBack(c.left) + ";" + ShowLine(c.right) else ShowBack(c)
  }

  // --------------------------------------------------------- well-formed

  predicate IsWord(w: string) {
    w != "" && forall i :: 0 <= i < |w| ==> IsPlain(w[i])
  }

  predicate WellFormed(c: Cmd) {
    match c
    case Exec(argv) => |argv| < MAXARGS && forall i :: 0 <= i < |argv| ==> IsWord(argv[i])
    case Redir(d, to) => WellFormed(d) && IsWord(to.file)
    case Pipe(l, r) => WellFormed(l) && WellFormed(r)
    case List(l, r) => WellFormed(l) && WellFormed(r)
    case Back(d) => WellFormed(d)
  }

  // ------------------------------------------- printed words and redirections

  /** What may follow a command inside a line: the end or a separator. */
  predicate Separated(rest: string) {
    rest == "" || rest[0] in "|)&;"
  }

  lemma {:induction false} WordLengthExact(w: string, more: string)
    requires IsWord(w) && (more == "" || !IsPlain(more[0]))
    ensures WordLength(w + more) == |w|
  {
    hide IsPlain;
    var s := w + more;
    assert forall i :: 0 <= i < |w| ==> s[i] == w[i];
    assert more != "" ==> s[|w|] == more[0];
  }

  /** A word after one space. */
  lemma WordToken(w: string, more: string)
    requires IsWord(w) && (more == "" || !IsPlain(more[0]))
    ensures Skip(" " + w + more) == w + more
    ensures NextToken(" " + w + more) == Token('a', w, Skip(more))
    ensures NextToken(w + more) == Token('a', w, Skip(more))
  {
    WordLengthExact(w, more);
    assert (" " + w + more)[1..] == w + more;
    assert IsPlain(w[0]);
    assert (w + more)[..|w|] == w && (w + more)[|w|..] == more;
  }

  /** The functions look only past leading spaces. */
  lemma SkipSkip(s: string)
    ensures Skip(Skip(s)) == Skip(s) && NextToken(Skip(s)) == NextToken(s)
    ensures forall toks :: Peek(Skip(s), toks) == Peek(s, toks)
  {
  }

  lemma SkipRedirs(s: string)
    ensures Redirs(Skip(s)) == Redirs(s)
  {
    SkipSkip(s);
  }

  lemma SkipWords(argv: seq<string>, rs: seq<Redirection>, s: string)
    ensures Words(argv, rs, Skip(s)) == Words(argv, rs, s)
  {
    SkipSkip(s);
  }

  /** Printed redirections, or a separator, end the word before them. */
  lemma {:induction false} RedirsEndWord(rs: seq<Redirection>, rest: string)
    requires Separated(rest)
    ensures var line := ShowRedirs(rs) + rest; line == "" || !IsPlain(line[0])
  {
    if rs == [] {
      assert ShowRedirs(rs) + rest == rest;
    } else {
      assert ShowRedirs(rs)[0] == ' ';
    }
  }

  lemma {:induction false} SeparatedStops(rest: string)
    requires Separated(rest)
    ensures Skip(rest) == rest && !Peek(rest, "<>") && !Peek(rest, "(") && Redirs(rest) == Ok([], rest)
    ensures rest == "" || !IsPlain(rest[0])
    ensures rest != "" ==> Peek(rest, "|)&;")
  {
  }

  /** `<` or `>` between spaces. */
  lemma {:induction false} OperatorToken(op: char, more: string)
    requires (op == '<' || op == '>') && more != "" && !IsSpace(more[0])
    ensures var line := [' ', op] + (" " + more);
            Skip(line) == [op] + (" " + more) && NextToken(line) == Token(op, [op], more) && Peek(line, "<>")
  {
    var line, t := [' ', op] + (" " + more), [op] + (" " + more);
    assert line[1..] == t && t[..1] == [op] && t[1..] == " " + more && (" " + more)[1..] == more;
    assert Skip(" " + more) == more;
  }

  /** The parser takes one printed redirection off the line. */
  lemma {:induction false} OneRedir(r: Redirection, more: string)
    requires IsWord(r.file) && (more == "" || !IsPlain(more[0]))
    ensures var line := ShowRedirs([r]) + more;
            Redirs(line) == match Redirs(more)
                            case Ok(rs, rest) => Ok([r] + rs, rest)
                            case Panic => Panic
  {
    hide NextToken, Peek, Skip, WordLength;
    var op := if r.mode == In then '<' else '>';
    var line := ShowRedirs([r]) + more;
    assert [r][1..] == [];
    assert ShowRedirs([r]) == [' ', op, ' '] + r.file;
    assert line == [' ', op] + (" " + (r.file + more));
    assert IsPlain((r.file + more)[0]);
    OperatorToken(op, r.file + more);
    WordToken(r.file, more);
    SkipRedirs(more);
  }

  lemma {:induction false} RedirsShown(rs: seq<Redirection>, rest: string)
    requires Separated(rest) && forall i :: 0 <= i < |rs| ==> IsWord(rs[i].file)
    ensures Redirs(ShowRedirs(rs) + rest) == Ok(rs, rest)
  {
    hide Redirs, Peek, NextToken, Skip, IsWord, IsPlain, Separated;
    if rs == [] {
      assert ShowRedirs(rs) + rest == rest;
      SeparatedStops(rest);
    } else {
      var more := ShowRedirs(rs[1..]) + rest;
      RedirsEndWord(rs[1..], rest);
      RedirsShown(rs[1..], rest);
      OneRedir(rs[0], more);
      FirstRedir(rs, rest);
      assert [rs[0]] + rs[1..] == rs;
    }
  }

  lemma FirstRedir(rs: seq<Redirection>, rest: string)
    requires rs != []
    ensures ShowRedirs(rs) + rest == ShowRedirs([rs[0]]) + (ShowRedirs(rs[1..]) + rest)
  {
    assert [rs[0]][1..] == [];
  }

  /** What the parser makes of a line that starts with a word. */
  lemma {:induction false} WordFirst(w: string, more: string)
    requires IsWord(w) && (more == "" || !IsPlain(more[0]))
    ensures var line := " " + w + more;
            !Peek(line, "<>") && !Peek(line, "(") && !Peek(line, "|)&;") && Redirs(line) == Ok([], Skip(line))
  {
    hide NextToken, Skip;
    WordToken(w, more);
    assert IsPlain((w + more)[0]);
  }

  lemma {:induction false} OneWord(argv: seq<string>, w: string, more: string)
    requires IsWord(w) && (more == "" || !IsPlain(more[0])) && |argv| + 1 < MAXARGS
    ensures Words(argv, [], " " + w + more) ==
            match Redirs(more)
            case Ok(rs, rest) => Words(argv + [w], rs, rest)
            case Panic => Panic
  {
    hide NextToken, Skip, Peek, Redirs;
    WordToken(w, more);
    WordFirst(w, more);
    SkipRedirs(more);
    match Redirs(more)
    case Ok(rs, rest) => assert [] + rs == rs;
    case Panic =>
  }

  lemma {:induction false} WordsEnd(argv: seq<string>, rs: seq<Redirection>, rest: string)
    requires Separated(rest)
    ensures Words(argv, rs, rest) == Ok(Wrap(Exec(argv), rs), rest)
  {
    SeparatedStops(rest);
  }

  lemma WordsCut(todo: seq<string>, tail: string)
    requires todo != []
    ensures ShowWords(todo) + tail == " " + todo[0] + (ShowWords(todo[1..]) + tail)
    ensures todo[1..] == [] ==> ShowWords(todo[1..]) + tail == tail
  {
  }

  lemma {:induction false} LastWord(done: seq<string>, w: string, rs: seq<Redirection>, rest: string)
    requires |done| + 1 < MAXARGS && Separated(rest) && IsWord(w)
    requires forall i :: 0 <= i < |rs| ==> IsWord(rs[i].file)
    ensures Words(done, [], " " + w + (ShowRedirs(rs) + rest)) == Ok(Wrap(Exec(done + [w]), rs), rest)
  {
    hide Words, Redirs, IsWord, IsPlain, Separated, Wrap, ShowRedirs;
    RedirsEndWord(rs, rest);
    OneWord(done, w, ShowRedirs(rs) + rest);
    RedirsShown(rs, rest);
    WordsEnd(done + [w], rs, rest);
  }

  lemma {:induction false} WordsShown(done: seq<string>, todo: seq<string>, rs: seq<Redirection>, rest: string)
    requires todo != [] && |done| + |todo| < MAXARGS && Separated(rest)
    requires forall i :: 0 <= i < |todo| ==> IsWord(todo[i])
    requires forall i :: 0 <= i < |rs| ==> IsWord(rs[i].file)
    ensures Words(done, [], ShowWords(todo) + (ShowRedirs(rs) + rest)) == Ok(Wrap(Exec(done + todo), rs), rest)
    decreases |todo|
  {
    hide Words, Redirs, IsWord, IsPlain, Separated, Wrap, ShowRedirs, ShowWords;
    var w, todo', tail := todo[0], todo[1..], ShowRedirs(rs) + rest;
    WordsCut(todo, tail);
    if todo' == [] {
      assert todo == [w];
      LastWord(done, w, rs, rest);
    } else {
      RedirsEndWord(rs, rest);
      WordsCut(todo', tail);
      ShownWordsEnd(todo'[1..], tail);
      TwoWords(done, w, todo'[0], ShowWords(todo'[1..]) + tail);
      WordsShown(done + [w], todo', rs, rest);
      assert (done + [w]) + todo' == done + todo;
    }
  }

  lemma {:induction false} TwoWords(done: seq<string>, w: string, w': string, more: string)
    requires IsWord(w) && IsWord(w') && (more == "" || !IsPlain(more[0])) && |done| + 1 < MAXARGS
    ensures var line := " " + w' + more; Words(done, [], " " + w + line) == Words(done + [w], [], line)
  {
    hide Words, Redirs, IsWord;
    var line := " " + w' + more;
    SpaceEndsWord(line);
    OneWord(done, w, line);
    WordFirst(w', more);
    SkipWords(done + [w], [], line);
  }

  lemma SpaceEndsWord(line: string)
    requires line != "" && line[0] == ' '
    ensures !IsPlain(line[0])
  {
  }

  lemma ShownWordsEnd(argv: seq<string>, tail: string)
    requires tail == "" || !IsPlain(tail[0])
    ensures var line := ShowWords(argv) + tail; line == "" || !IsPlain(line[0])
  {
    if argv == [] {
      assert ShowWords(argv) + tail == tail;
    }
  }

  // ------------------------------------------------------- printed commands

  lemma {:induction false} WrapChain(c: Cmd)
    ensures Wrap(Base(c), Chain(c)) == c
  {
    if c.Redir? {
      WrapChain(c.cmd);
      assert Chain(c)[..|Chain(c)| - 1] == Chain(c.cmd);
    }
  }

  lemma {:induction false} WellFormedParts(c: Cmd)
    requires WellFormed(c)
    ensures WellFormed(Base(c)) && forall i :: 0 <= i < |Chain(c)| ==> IsWord(Chain(c)[i].file)
  {
    if c.Redir? {
      WellFormedParts(c.cmd);
    }
  }

  /** A one-character token in front of more. */
  lemma {:induction false} SymbolToken(sym: char, more: string)
    requires sym in "|();&"
    ensures var line := [sym] + more;
            Skip(line) == line && NextToken(line) == Token(sym, [sym], Skip(more))
            && forall toks :: Peek(line, toks) == (sym in toks)
  {
    var line := [sym] + more;
    assert line[..1] == [sym] && line[1..] == more;
  }

  lemma {:induction false} SkipParse(s: string)
    ensures ParseExec(Skip(s)) == ParseExec(s) && ParsePipe(Skip(s)) == ParsePipe(s)
    ensures ParseLine(Skip(s)) == ParseLine(s)
    ensures forall c :: AfterPipe(c, Skip(s)) == AfterPipe(c, s)
  {
    hide NextToken, Skip, Peek, Redirs, Words;
    SkipSkip(s);
    SkipRedirs(s);
  }

  lemma {:induction false} ExecShown(c: Cmd, rest: string)
    requires WellFormed(c) && Separated(rest)
    ensures ParseExec(ShowExec(c) + rest) == Ok(c, rest)
    decreases c, 10
  {
    hide WellFormed, Wrap, Chain, IsWord, ParseExec, ParseLine, ShowLine, Separated, ShowRedirs, ShowWords;
    var b, rs := Base(c), Chain(c);
    var tail := ShowRedirs(rs) + rest;
    WrapChain(c);
    WellFormedParts(c);
    if b.Exec? {
      assert ShowExec(c) + rest == ShowWords(b.argv) + tail;
      PlainShown(b, rs, rest);
    } else {
      assert ShowExec(c) + rest == "(" + (ShowLine(b) + (")" + tail));
      LineShown(b, ")" + tail);
      BlockShown(b, rs, rest);
    }
  }

  lemma {:induction false} PlainShown(b: Cmd, rs: seq<Redirection>, rest: string)
    requires b.Exec? && WellFormed(b) && Separated(rest)
    requires forall i :: 0 <= i < |rs| ==> IsWord(rs[i].file)
    ensures ParseExec(ShowWords(b.argv) + (ShowRedirs(rs) + rest)) == Ok(Wrap(b, rs), rest)
  {
    hide Words, Redirs, IsWord, Separated, Wrap, ShowRedirs, Peek, Skip;
    var tail := ShowRedirs(rs) + rest;
    var line := ShowWords(b.argv) + tail;
    RedirsEndWord(rs, rest);
    if b.argv == [] {
      assert line == tail && b == Exec([]);
      RedirsShown(rs, rest);
      WordsEnd([], rs, rest);
      NoParen(rs, rest);
    } else {
      var w, more := b.argv[0], ShowWords(b.argv[1..]) + tail;
      assert line == " " + w + more;
      ShownWordsEnd(b.argv[1..], tail);
      WordFirst(w, more);
      SkipWords([], [], line);
      WordsShown([], b.argv, rs, rest);
      assert [] + b.argv == b.argv;
    }
  }

  lemma {:induction false} NoParen(rs: seq<Redirection>, rest: string)
    requires Separated(rest)
    ensures !Peek(ShowRedirs(rs) + rest, "(")
  {
    if rs == [] {
      assert ShowRedirs(rs) + rest == rest;
    } else {
      var op, line := if rs[0].mode == In then '<' else '>', ShowRedirs(rs) + rest;
      assert line[0] == ' ' && line[1] == op;
      assert Skip(line[1..]) == line[1..];
    }
  }

  /** A parenthesised line and its redirections, given what the line parses to. */
  lemma {:induction false} BlockShown(b: Cmd, rs: seq<Redirection>, rest: string)
    requires Separated(rest) && forall i :: 0 <= i < |rs| ==> IsWord(rs[i].file)
    requires var tail := ")" + (ShowRedirs(rs) + rest); ParseLine(ShowLine(b) + tail) == Ok(b, tail)
    ensures ParseExec("(" + (ShowLine(b) + (")" + (ShowRedirs(rs) + rest)))) == Ok(Wrap(b, rs), rest)
  {
    hide NextToken, Skip, Peek, Redirs, ParseLine, Wrap, ShowLine, ShowRedirs, Separated, IsWord;
    var tail := ShowRedirs(rs) + rest;
    SymbolToken('(', ShowLine(b) + (")" + tail));
    SkipParse(ShowLine(b) + (")" + tail));
    SymbolToken(')', tail);
    RedirsShown(rs, rest);
    SkipRedirs(tail);
  }

  lemma {:induction false} PipeShown(c: Cmd, rest: string)
    requires WellFormed(c) && Separated(rest) && (rest != "" ==> rest[0] != '|')
    ensures ParsePipe(ShowPipe(c) + rest) == Ok(c, rest)
    decreases c, if c.Pipe? then 1 else 11
  {
    hide NextToken, Skip, Redirs, Peek, ParseExec, ShowExec;
    PipeStops(rest);
    if c.Pipe? {
      var more := ShowPipe(c.right) + rest;
      assert ShowPipe(c) + rest == ShowExec(c.left) + ("|" + more);
      ExecShown(c.left, "|" + more);
      SymbolToken('|', more);
      SkipParse(more);
      PipeShown(c.right, rest);
    } else {
      ExecShown(c, rest);
    }
  }

  lemma {:induction false} PipeStops(rest: string)
    requires Separated(rest) && (rest != "" ==> rest[0] != '|')
    ensures Skip(rest) == rest && !Peek(rest, "|")
  {
  }

  lemma {:induction false} BackShown(c: Cmd, rest: string)
    requires WellFormed(c) && Separated(rest) && (rest != "" ==> rest[0] != '|')
    ensures ParseLine(ShowBack(c) + rest) == AfterPipe(c, rest)
    decreases c, if c.Back? || c.Pipe? then 2 else 12
  {
    hide NextToken, Skip, Peek, ParsePipe, ShowPipe;
    if c.Back? {
      assert ShowBack(c) + rest == ShowBack(c.cmd) + ("&" + rest);
      BackShown(c.cmd, "&" + rest);
      SymbolToken('&', rest);
      SkipParse(rest);
    } else {
      PipeShown(c, rest);
    }
  }

  lemma {:induction false} LineShown(c: Cmd, rest: string)
    requires WellFormed(c) && (rest != "" ==> rest[0] == ')')
    ensures ParseLine(ShowLine(c) + rest) == Ok(c, rest)
    decreases c, if c.Exec? || c.Redir? then 13 else 3
  {
    hide NextToken, ParseLine, ShowBack;
    if c.List? {
      hide Skip, Peek;
      var more := ShowLine(c.right) + rest;
      assert ShowLine(c) + rest == ShowBack(c.left) + (";" + more);
      BackShown(c.left, ";" + more);
      SymbolToken(';', more);
      SkipParse(more);
      LineShown(c.right, rest);
    } else {
      BackShown(c, rest);
    }
  }

  /** Parsing a printed tree gives the tree back and leaves nothing over. */
  lemma {:induction false} RoundTrip(c: Cmd)
    requires WellFormed(c)
    ensures ParseCmd(ShowLine(c)) == Ok(c, "")
  {
    LineShown(c, "");
    assert ShowLine(c) + "" == ShowLine(c);
  }

  // ---------------------------------------- trees that lines parse to

  lemma {:induction false} RedirsAreWords(s: string)
    ensures var p := Redirs(s); p.Ok? ==> forall i :: 0 <= i < |p.value| ==> IsWord(p.value[i].file)
    decreases |s|
  {
    hide Peek, Skip;
    if Peek(s, "<>") {
      NextTokenShorter(s);
      RedirsAreWords(NextToken(NextToken(s).rest).rest);
    }
  }

  lemma NextTokenShorter(s: string)
    ensures forall toks :: Peek(s, toks) ==> |NextToken(s).rest| < |s|
    ensures NextToken(s).kind != '\0' ==> |NextToken(s).rest| < |s|
  {
  }

  lemma {:induction false} WrapWellFormed(c: Cmd, rs: seq<Redirection>)
    requires WellFormed(c) && forall i :: 0 <= i < |rs| ==> IsWord(rs[i].file)
    ensures WellFormed(Wrap(c, rs))
  {
    if rs != [] {
      WrapWellFormed(c, rs[..|rs| - 1]);
    }
  }

  lemma {:induction false} WordsWellFormed(argv: seq<string>, rs: seq<Redirection>, s: string)
    requires WellFormed(Exec(argv)) && forall i :: 0 <= i < |rs| ==> IsWord(rs[i].file)
    ensures var p := Words(argv, rs, s); p.Ok? ==> WellFormed(p.value)
    decreases |s|
  {
    hide Peek, Skip, Wrap, Redirs;
    WrapWellFormed(Exec(argv), rs);
    var t := NextToken(s);
    if !Peek(s, "|)&;") && t.kind == 'a' && |argv| + 1 < MAXARGS {
      RedirsAreWords(t.rest);
      match Redirs(t.rest)
      case Ok(more, rest) => WordsWellFormed(argv + [t.text], rs + more, rest);
      case Panic =>
    }
  }

  lemma {:induction false} LineWellFormed(s: string)
    ensures var p := ParseLine(s); p.Ok? ==> WellFormed(p.value)
    decreases |s|, 4
  {
    hide Skip, NextToken, WellFormed, ParsePipe;
    PipeWellFormed(s);
    match ParsePipe(s)
    case Ok(c, rest) => AfterWellFormed(c, rest);
    case Panic =>
  }

  lemma {:induction false} AfterWellFormed(c: Cmd, s: string)
    requires WellFormed(c)
    ensures var p := AfterPipe(c, s); p.Ok? ==> WellFormed(p.value)
    decreases |s|, 3
  {
    hide Skip, NextToken, Peek, ParseLine;
    NextTokenShorter(s);
    if Peek(s, "&") {
      AfterWellFormed(Back(c), NextToken(s).rest);
    } else if Peek(s, ";") {
      LineWellFormed(NextToken(s).rest);
    }
  }

  lemma {:induction false} PipeWellFormed(s: string)
    ensures var p := ParsePipe(s); p.Ok? ==> WellFormed(p.value)
    decreases |s|, 2
  {
    hide Skip, NextToken, Peek, ParseExec;
    ExecWellFormed(s);
    match ParseExec(s)
    case Panic =>
    case Ok(c, rest) =>
      NextTokenShorter(rest);
      if Peek(rest, "|") {
        PipeWellFormed(NextToken(rest).rest);
      }
  }

  lemma {:induction false} ExecWellFormed(s: string)
    ensures var p := ParseExec(s); p.Ok? ==> WellFormed(p.value)
    decreases |s|, 1
  {
    hide Skip, NextToken, Peek, Redirs, Words, ParseLine, Wrap;
    if Peek(s, "(") {
      NextTokenShorter(s);
      LineWellFormed(NextToken(s).rest);
      match ParseLine(NextToken(s).rest)
      case Panic =>
      case Ok(c, rest) =>
        var tail := NextToken(rest).rest;
        RedirsAreWords(tail);
        match Redirs(tail)
        case Ok(rs, _) => WrapWellFormed(c, rs);
        case Panic =>
    } else {
      RedirsAreWords(s);
      match Redirs(s)
      case Ok(rs, rest) => WordsWellFormed([], rs, rest);
      case Panic =>
    }
  }

  /**
   The trees the parser builds are exactly the well-formed ones, and printing what a line parsed to
   gives a line with the same parse.
   */
  lemma {:induction false} ParseShowParse(s: string)
    requires ParseCmd(s).Ok?
    ensures WellFormed(ParseCmd(s).value)
    ensures ParseCmd(ShowLine(ParseCmd(s).value)) == ParseCmd(s)
  {
    hide ParseLine, ShowLine;
    LineWellFormed(s);
    RoundTrip(ParseCmd(s).value);
  }

  ghost predicate Parses(c: Cmd) {
    exists s :: ParseCmd(s) == Ok(c, "")
  }

  lemma {:induction false} ParsesIffWellFormed(c: Cmd)
    ensures Parses(c) <==> WellFormed(c)
  {
    hide ParseCmd, ShowLine, WellFormed;
    if Parses(c) {
      var s :| ParseCmd(s) == Ok(c, "");
      ParseShowParse(s);
    }
    if WellFormed(c) {
      RoundTrip(c);
    }
  }

  lemma StartsWith(c: char, line: string)
    requires line != "" && line[0] == c && !IsSpace(c)
    ensures Skip(line) == line
  {
  }

  /** Each operator as the next token of a line. */
  lemma {:induction false} AngleToken(op: string, s: string)
    requires op in ["<", ">", ">>"]
    ensures var line, kind := op + (" " + s), if op == ">>" then '+' else op[0];
            NextToken(line) == Token(kind, op, Skip(s)) && Peek(line, "<>")
  {
    var more := " " + s;
    var line := op + more;
    assert more[1..] == s && more[0] == ' ';
    assert line[..|op|] == op && line[|op|..] == more && line[0] == op[0];
    assert |op| == 1 ==> line[1] == ' ';
    assert |op| == 2 ==> line[1] == '>';
    StartsWith(op[0], line);
  }

  /** What each operator does with the word after it: `<` reads it, `>` and `>>` write it. */
  lemma {:induction false} OperatorModes(op: string, w: string, more: string)
    requires op in ["<", ">", ">>"] && IsWord(w) && (more == "" || !IsPlain(more[0]))
    ensures Redirs(op + (" " + w + more)) ==
            match Redirs(more)
            case Ok(rs, rest) => Ok([Redirection(w, if op == "<" then In else Out)] + rs, rest)
            case Panic => Panic
  {
    hide NextToken, Peek, Skip, WordLength;
    assert " " + w + more == " " + (w + more);
    AngleToken(op, w + more);
    WordToken(w, more);
    SkipSkip(w + more);
    SkipRedirs(more);
  }

  /** No command may follow `&` on a line: the rest is reported as left over. */
  lemma {:induction false} NothingAfterBack(c: Cmd, more: string)
    requires WellFormed(c) && more != "" && IsPlain(more[0])
    ensures ParseCmd(ShowBack(c) + ("& " + more)) == Panic
  {
    hide NextToken, Peek, ParseLine, ShowBack;
    assert "& " + more == ['&'] + (" " + more) && (" " + more)[1..] == more;
    BackShown(c, "& " + more);
    SymbolToken('&', " " + more);
    StartsWith(more[0], more);
    NoSymbol(more);
  }

  lemma NoSymbol(more: string)
    requires more != "" && IsPlain(more[0])
    ensures !Peek(more, "&") && !Peek(more, ";")
  {
  }
}
