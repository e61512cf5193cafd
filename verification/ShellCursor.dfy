/**
 The shell's parser as the code runs it: a position moving over the line, tokens as slices
 of it, and loops that wrap the tree as they go. Each method returns what the grammar's
 function returns and leaves the position where the function's rest of the line begins.
 */
module ShellCursor {
  import opened Shell

  datatype Option<+T> = None | Some(value: T)

  /** What a parsing method returns (nothing when it panics) and leaves on the line. */
  function Outcome(c: Option<Cmd>, rest: string): Parsed<Cmd> {
    if c == None then Panic else Ok(c.value, rest)
  }

  /** The EXEC node under the redirections, given other arguments in place. */
  function SetArgv(c: Cmd, argv: seq<string>): Cmd {
    match c
    case Exec(_) => Exec(argv)
    case Redir(d, to) => Redir(SetArgv(d, argv), to)
    case _ => c
  }

  lemma {:induction false} SetArgvWrap(a: seq<string>, argv: seq<string>, rs: seq<Redirection>)
    ensures SetArgv(Wrap(Exec(a), rs), argv) == Wrap(Exec(argv), rs)
  {
    if rs != [] {
      SetArgvWrap(a, argv, rs[..|rs| - 1]);
    }
  }

  lemma {:induction false} WrapWrap(c: Cmd, rs: seq<Redirection>, more: seq<Redirection>)
    ensures Wrap(Wrap(c, rs), more) == Wrap(c, rs + more)
  {
    if more == [] {
      assert rs + more == rs;
    } else {
      WrapWrap(c, rs, more[..|more| - 1]);
      assert (rs + more)[..|rs + more| - 1] == rs + more[..|more| - 1];
    }
  }

  lemma EmptySkip()
    ensures Skip("") == ""
  {
  }

  /** What one more redirection in front does to the rest of the parse. */
  function Before(rs: seq<Redirection>, p: Parsed<seq<Redirection>>): Parsed<seq<Redirection>> {
    match p
    case Ok(later, rest) => Ok(rs + later, rest)
    case Panic => Panic
  }

  lemma BeforeBefore(rs: seq<Redirection>, to: Redirection, p: Parsed<seq<Redirection>>)
    ensures Before([], p) == p
    ensures Before(rs, Before([to], p)) == Before(rs + [to], p)
  {
    match p
    case Ok(later, _) =>
      assert [] + later == later && rs + ([to] + later) == (rs + [to]) + later;
    case Panic =>
  }

  lemma PanicBefore(rs: seq<Redirection>)
    ensures Before(rs, Panic) == Panic
  {
  }

  lemma NoneBefore(rs: seq<Redirection>, rest: string)
    ensures Before(rs, Ok([], rest)) == Ok(rs, rest)
  {
    assert rs + [] == rs;
  }

  /** The parse of redirections, one at a time. */
  lemma RedirsStep(s: string)
    ensures !Peek(s, "<>") ==> Redirs(s) == Ok([], Skip(s))
    ensures var op := NextToken(s);
            var file := NextToken(op.rest);
            Peek(s, "<>") ==>
              Redirs(s) == if file.kind != 'a' then Panic
                           else Before([Redirection(file.text, ModeOf(op.kind))], Redirs(file.rest))
  {
    hide Skip, NextToken, Peek;
  }

  /** The line being parsed and the position that `gettoken` and `peek` advance. */
  class Cursor {
    const text: string
    var pos: nat

    constructor (line: string)
      ensures pos == 0 && text == line
    {
      text, pos := line, 0;
    }

    ghost predicate Valid()
      reads this
    {
      pos <= |text|
    }

    ghost function Rest(): string
      requires Valid()
      reads this
    {
      text[pos..]
    }

    method SkipSpace()
      requires Valid()
      modifies this
      ensures Valid() && Rest() == Skip(old(Rest()))
    {
      while pos < |text| && IsSpace(text[pos])
        invariant Valid() && Skip(Rest()) == Skip(old(Rest()))
        decreases |text| - pos
      {
        assert Rest()[1..] == text[pos + 1..];
        pos := pos + 1;
      }
    }

    /** `peek` */
    method At(toks: string) returns (r: bool)
      requires Valid()
      modifies this
      ensures Valid() && Rest() == Skip(old(Rest()))
      ensures r == Peek(old(Rest()), toks)
    {
      SkipSpace();
      r := pos < |text| && text[pos] in toks;
    }

    /** The inner loop of `gettoken` over a word. */
    method SkipWord()
      requires Valid()
      modifies this
      ensures Valid() && pos == old(pos) + WordLength(old(Rest()))
    {
      while pos < |text| && IsPlain(text[pos])
        invariant old(pos) <= pos && Valid()
        invariant WordLength(old(Rest())) == pos - old(pos) + WordLength(Rest())
        decreases |text| - pos
      {
        assert Rest()[1..] == text[pos + 1..];
        pos := pos + 1;
      }
    }

    /** `gettoken`; the token is text[q..eq]. */
    method GetToken() returns (kind: char, q: nat, eq: nat)
      requires Valid()
      modifies this
      ensures Valid() && q <= eq <= |text|
      ensures NextToken(old(Rest())) == Token(kind, text[q..eq], Rest())
    {
      hide Skip, WordLength, IsSpace;
      SkipSpace();
      q := pos;
      ghost var t := Rest();
      if pos == |text| {
        kind := '\0';
      } else if text[pos] in "|();&<" {
        kind, pos := text[pos], pos + 1;
      } else if text[pos] == '>' {
        kind, pos := '>', pos + 1;
        if pos < |text| && text[pos] == '>' {
          kind, pos := '+', pos + 1;
        }
      } else {
        kind := 'a';
        SkipWord();
      }
      eq := pos;
      assert text[q..eq] == t[..eq - q] && Rest() == t[eq - q..];
      EmptySkip();
      SkipSpace();
    }

    /** `parseredirs` */
    method ReadRedirs(c: Cmd) returns (r: Option<Cmd>)
      requires Valid()
      modifies this
      ensures Valid()
      ensures match Redirs(old(Rest()))
              case Ok(rs, rest) => r == Some(Wrap(c, rs)) && Rest() == rest
              case Panic => r == None
    {
      hide Skip, NextToken, Peek, Redirs, Before, ModeOf;
      var d := c;
      ghost var rs := [];
      var more := At("<>");
      SkipSkip(old(Rest()));
      SkipRedirs(old(Rest()));
      BeforeBefore([], Redirection("", In), Redirs(Rest()));
      while more
        invariant Valid() && d == Wrap(c, rs) && more == Peek(Rest(), "<>") && Skip(Rest()) == Rest()
        invariant Redirs(old(Rest())) == Before(rs, Redirs(Rest()))
        decreases |text| - pos
      {
        NextTokenShorter(Rest());
        RedirsStep(Rest());
        var op, _, _ := GetToken();
        var kind, q, eq := GetToken();
        if kind != 'a' {
          PanicBefore(rs);
          return None;
        }
        ghost var to := Redirection(text[q..eq], ModeOf(op));
        BeforeBefore(rs, to, Redirs(Rest()));
        d := Redir(d, Redirection(text[q..eq], ModeOf(op)));
        assert (rs + [to])[..|rs|] == rs;
        rs := rs + [to];
        SkipSkip(Rest());
        SkipRedirs(Rest());
        more := At("<>");
      }
      RedirsStep(Rest());
      NoneBefore(rs, Rest());
      r := Some(d);
    }

    /** `parseexec` */
    method ReadExec() returns (r: Option<Cmd>)
      requires Valid()
      modifies this
      ensures Valid() && Outcome(r, Rest()) == ParseExec(old(Rest()))
      decreases |text| - pos, 1
    {
      hide Skip, NextToken, Peek, Redirs, ParseBlock, Wrap, SetArgv;
      ghost var s := Rest();
      SkipSkip(s);
      SkipRedirs(s);
      SkipParse(s);
      var block := At("(");
      if block {
        r := ReadBlock();
        return;
      }
      var argv: seq<string> := [];
      SetArgvWrap([], [], []);
      var ret := ReadRedirs(Exec([]));
      if ret == None {
        return None;
      }
      r := ReadWords(ret.value, Redirs(s).value);
    }

    /** The loop of `parseexec`, filling the arguments of the node that `ret` wraps. */
    method ReadWords(c: Cmd, ghost rs0: seq<Redirection>) returns (r: Option<Cmd>)
      requires Valid() && c == Wrap(Exec([]), rs0)
      modifies this
      ensures Valid() && Outcome(r, Rest()) == Words([], rs0, old(Rest()))
    {
      hide Skip, NextToken, Peek, Redirs, Wrap, SetArgv;
      var ret, argv := c, [];
      ghost var rs := rs0;
      SkipSkip(Rest());
      SkipWords(argv, rs, Rest());
      var stop := At("|)&;");
      while !stop
        invariant Valid() && ret == Wrap(Exec(argv), rs) && |argv| < MAXARGS
        invariant stop == Peek(Rest(), "|)&;") && Skip(Rest()) == Rest()
        invariant Words([], rs0, old(Rest())) == Words(argv, rs, Rest())
        decreases |text| - pos
      {
        NextTokenShorter(Rest());
        var tok, q, eq := GetToken();
        if tok == '\0' {
          return Some(ret);
        }
        if tok != 'a' {
          return None;
        }
        ghost var had := argv;
        argv := argv + [text[q..eq]];
        if |argv| >= MAXARGS {
          return None;
        }
        SetArgvWrap(had, argv, rs);
        ghost var s' := Rest();
        var wrapped := ReadRedirs(SetArgv(ret, argv));
        if wrapped == None {
          return None;
        }
        WrapWrap(Exec(argv), rs, Redirs(s').value);
        ret, rs := wrapped.value, rs + Redirs(s').value;
        SkipSkip(Rest());
        SkipWords(argv, rs, Rest());
        stop := At("|)&;");
      }
      r := Some(ret);
    }

    /** `parseblock` */
    method ReadBlock() returns (r: Option<Cmd>)
      requires Valid()
      modifies this
      ensures Valid() && Outcome(r, Rest()) == ParseBlock(old(Rest()))
      decreases |text| - pos, 0
    {
      hide Skip, NextToken, Peek, Redirs, ParseLine, Wrap;
      ghost var s := Rest();
      NextTokenShorter(s);
      SkipSkip(s);
      var open := At("(");
      if !open {
        return None;
      }
      var _, _, _ := GetToken();
      var c := ReadLine();
      if c == None {
        return None;
      }
      ghost var s' := Rest();
      SkipSkip(s');
      var close := At(")");
      if !close {
        return None;
      }
      var _, _, _ := GetToken();
      r := ReadRedirs(c.value);
    }

    /** `parsepipe` */
    method ReadPipe() returns (r: Option<Cmd>)
      requires Valid()
      modifies this
      ensures Valid() && Outcome(r, Rest()) == ParsePipe(old(Rest()))
      decreases |text| - pos, 2
    {
      hide Skip, NextToken, Peek, ParseExec;
      r := ReadExec();
      if r == None {
        return;
      }
      ghost var s := Rest();
      SkipSkip(s);
      NextTokenShorter(s);
      var more := At("|");
      if more {
        var _, _, _ := GetToken();
        var right := ReadPipe();
        r := if right == None then None else Some(Pipe(r.value, right.value));
      }
    }

    /** `parseline` */
    method ReadLine() returns (r: Option<Cmd>)
      requires Valid()
      modifies this
      ensures Valid() && Outcome(r, Rest()) == ParseLine(old(Rest()))
      decreases |text| - pos, 4
    {
      hide Skip, NextToken, Peek, ParsePipe;
      r := ReadPipe();
      if r == None {
        return;
      }
      SkipSkip(Rest());
      SkipParse(Rest());
      var c := r.value;
      var back := At("&");
      while back
        invariant Valid() && back == Peek(Rest(), "&") && Skip(Rest()) == Rest()
        invariant |Rest()| <= |old(Rest())|
        invariant ParseLine(old(Rest())) == AfterPipe(c, Rest())
        decreases |text| - pos
      {
        NextTokenShorter(Rest());
        var _, _, _ := GetToken();
        c := Back(c);
        SkipSkip(Rest());
        SkipParse(Rest());
        back := At("&");
      }
      SkipSkip(Rest());
      NextTokenShorter(Rest());
      var semi := At(";");
      if semi {
        var _, _, _ := GetToken();
        var d := ReadLine();
        r := if d == None then None else Some(List(c, d.value));
      } else {
        r := Some(c);
      }
    }
  }

  /** `parsecmd` */
  method ParseCommand(line: string) returns (r: Option<Cmd>)
    ensures Outcome(r, "") == ParseCmd(line)
  {
    hide ParseLine, Skip, Peek;
    var cursor := new Cursor(line);
    assert line[0..] == line;
    r := cursor.ReadLine();
    if r != None {
      var _ := cursor.At("");
      if cursor.pos != |line| {
        r := None;
      }
    }
  }
}
