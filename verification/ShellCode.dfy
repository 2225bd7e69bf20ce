/**
  The routines of the shell's parser as they run (user/sh.c), each proved to read exactly
  what its function in module Shell says.
 */
module ShellCode {
  import opened Shell

  method Gettoken(s: string, p: nat) returns (t: Token)
    requires Clean(s) && p <= |s|
    ensures t == TokenAt(s, p)
  {
    var q := SkipSpaces(s, p);
    var e := q;
    var kind := if q < |s| then s[q] else '\0';
    if kind == '\0' {
    } else if kind in ['|', '(', ')', ';', '&', '<'] {
      e := e + 1;
    } else if kind == '>' {
      e := e + 1;
      if e < |s| && s[e] == '>' {
        kind := '+';
        e := e + 1;
      }
    } else {
      kind := 'a';
      while e < |s| && !IsSpace(s[e]) && !IsSymbol(s[e])
        invariant q <= e <= |s| && WordEnd(s, q) == WordEnd(s, e)
      {
        e := e + 1;
      }
    }
    var next := SkipSpaces(s, e);
    return Token(kind, q, e, next);
  }

  method SkipSpaces(s: string, p: nat) returns (q: nat)
    requires p <= |s|
    ensures q == Skip(s, p)
  {
    q := p;
    while q < |s| && IsSpace(s[q])
      invariant p <= q <= |s| && Skip(s, p) == Skip(s, q)
    {
      q := q + 1;
    }
  }

  method Peek(s: string, p: nat, toks: string) returns (b: bool, q: nat)
    requires p <= |s|
    ensures q == Skip(s, p) && b == SeesAt(s, p, toks)
  {
    q := SkipSpaces(s, p);
    b := q < |s| && s[q] in toks;
  }

  lemma SkipTwice(s: string, p: nat)
    requires p <= |s|
    ensures Skip(s, Skip(s, p)) == Skip(s, p)
  {
  }

  lemma TokenSkip(s: string, p: nat)
    requires Clean(s) && p <= |s|
    ensures TokenAt(s, Skip(s, p)) == TokenAt(s, p)
  {
    SkipTwice(s, p);
  }

  method Parseredirs(s: string, p: nat, before: seq<Redirection<Span>>)
      returns (r: Result<Parsed<seq<Redirection<Span>>>>)
    requires Clean(s) && p <= |s|
    ensures r == RedirsAt(s, p, before)
  {
    hide TokenAt;
    var rs, q := before, p;
    while true
      invariant p <= q <= |s| && RedirsAt(s, p, before) == RedirsAt(s, q, rs)
      decreases |s| - q
    {
      var more, q1 := Peek(s, q, "<>");
      if !more {
        return Ok(Parsed(rs, q1));
      }
      var op := Gettoken(s, q1);
      var f := Gettoken(s, op.next);
      if f.kind != 'a' {
        return Panic("missing file for redirection");
      }
      rs, q := rs + [Redirection(Span(f.lo, f.hi), KindOf(op.kind))], f.next;
    }
  }

  method Parseexec(s: string, p: nat) returns (r: Result<Parsed<Cmd<Span>>>)
    requires Clean(s) && p <= |s|
    ensures r == ExecAt(s, p)
    decreases |s| - p, 2
  {
    hide TokenAt, LineAt, BlockAt;
    var block, q := Peek(s, p, "(");
    if block {
      r := Parseblock(s, q);
      return;
    }
    RedirsSkip(s, p);
    var rs := Parseredirs(s, q, []);
    if rs.Panic? {
      return Panic(rs.msg);
    }
    var w := Parseargs(s, rs.value.next, rs.value.value);
    if w.Panic? {
      return Panic(w.msg);
    }
    return Ok(Parsed(Wrap(Exec(w.value.value.args), w.value.value.rs), w.value.next));
  }

  lemma RedirsSkip(s: string, p: nat)
    requires Clean(s) && p <= |s|
    ensures RedirsAt(s, Skip(s, p), []) == RedirsAt(s, p, [])
  {
    SkipTwice(s, p);
  }

  /** The loop of parseexec. */
  method Parseargs(s: string, p: nat, before: seq<Redirection<Span>>) returns (r: Result<Parsed<Words>>)
    requires Clean(s) && p <= |s|
    ensures r == ArgsAt(s, p, Words([], before))
  {
    hide TokenAt, RedirsAt;
    var args, rs, q := [], before, p;
    while true
      invariant p <= q <= |s| && ArgsAt(s, p, Words([], before)) == ArgsAt(s, q, Words(args, rs))
      decreases |s| - q
    {
      var stop, q1 := Peek(s, q, "|)&;");
      if stop {
        return Ok(Parsed(Words(args, rs), q1));
      }
      var t := Gettoken(s, q1);
      if t.kind == '\0' {
        return Ok(Parsed(Words(args, rs), t.next));
      }
      if t.kind != 'a' {
        return Panic("syntax");
      }
      args := args + [Span(t.lo, t.hi)];
      if |args| >= MAXARGS {
        return Panic("too many args");
      }
      var more := Parseredirs(s, t.next, rs);
      if more.Panic? {
        return Panic(more.msg);
      }
      rs, q := more.value.value, more.value.next;
    }
  }

  method Parseblock(s: string, p: nat) returns (r: Result<Parsed<Cmd<Span>>>)
    requires Clean(s) && p <= |s|
    ensures r == BlockAt(s, p)
    decreases |s| - p, 1
  {
    hide TokenAt, LineAt, RedirsAt;
    var open, q := Peek(s, p, "(");
    if !open {
      return Panic("parseblock");
    }
    TokenSkip(s, p);
    var t := Gettoken(s, q);
    var body := Parseline(s, t.next);
    if body.Panic? {
      return Panic(body.msg);
    }
    var close, q1 := Peek(s, body.value.next, ")");
    if !close {
      return Panic("syntax - missing )");
    }
    TokenSkip(s, body.value.next);
    t := Gettoken(s, q1);
    var rs := Parseredirs(s, t.next, []);
    if rs.Panic? {
      return Panic(rs.msg);
    }
    return Ok(Parsed(Wrap(body.value.value, rs.value.value), rs.value.next));
  }

  method Parsepipe(s: string, p: nat) returns (r: Result<Parsed<Cmd<Span>>>)
    requires Clean(s) && p <= |s|
    ensures r == PipeAt(s, p)
    decreases |s| - p, 3
  {
    hide TokenAt, ExecAt;
    r := Parseexec(s, p);
    if r.Panic? {
      return;
    }
    var pipe, q := Peek(s, r.value.next, "|");
    if !pipe {
      return Ok(Parsed(r.value.value, q));
    }
    TokenSkip(s, r.value.next);
    var t := Gettoken(s, q);
    var rest := Parsepipe(s, t.next);
    if rest.Panic? {
      return Panic(rest.msg);
    }
    return Ok(Parsed(Pipe(r.value.value, rest.value.value), rest.value.next));
  }

  method Parseline(s: string, p: nat) returns (r: Result<Parsed<Cmd<Span>>>)
    requires Clean(s) && p <= |s|
    ensures r == LineAt(s, p)
    decreases |s| - p, 4
  {
    hide TokenAt, PipeAt;
    r := Parsepipe(s, p);
    if r.Panic? {
      return;
    }
    var cmd, q := r.value.value, r.value.next;
    var back, q1 := Peek(s, q, "&");
    while back
      invariant p <= q <= q1 <= |s| && q1 == Skip(s, q) && back == SeesAt(s, q, "&")
      invariant BacksAt(s, r.value.next, r.value.value) == BacksAt(s, q, cmd)
      decreases |s| - q
    {
      TokenSkip(s, q);
      var t := Gettoken(s, q1);
      cmd, q := Back(cmd), t.next;
      back, q1 := Peek(s, q, "&");
    }
    SkipTwice(s, q);
    TokenSkip(s, q);
    var list, q2 := Peek(s, q1, ";");
    if !list {
      return Ok(Parsed(cmd, q2));
    }
    var t := Gettoken(s, q2);
    var rest := Parseline(s, t.next);
    if rest.Panic? {
      return Panic(rest.msg);
    }
    return Ok(Parsed(List(cmd, rest.value.value), rest.value.next));
  }

  /** One of the first i words ends at k. */
  ghost predicate EndsAmong(args: seq<Span>, i: nat, k: nat) {
    exists j: nat :: j < i && j < |args| && args[j].hi == k
  }

  /** Writes a zero at the end of every word of the command, and nowhere else. */
  method Nulterminate(b: array<char>, cmd: Cmd<Span>)
    requires forall w | w in Spans(cmd) :: w.hi < b.Length
    modifies b
    ensures Terminated(old(b[..]), b[..], cmd)
    decreases cmd
  {
    match cmd
    case Exec(args) =>
      var i := 0;
      while i < |args|
        invariant 0 <= i <= |args|
        invariant forall k: nat | k < b.Length :: b[k] == if EndsAmong(args, i, k) then '\0' else old(b[k])
      {
        assert args[i] in Spans(cmd);
        b[args[i].hi] := '\0';
        i := i + 1;
      }
      forall k: nat | k < b.Length ensures EndsAmong(args, |args|, k) <==> exists w :: w in Spans(cmd) && w.hi == k {
        if j: nat :| j < |args| && args[j].hi == k {
          assert args[j] in Spans(cmd);
        }
      }
    case Redir(c, file, _) =>
      Nulterminate(b, c);
      b[file.hi] := '\0';
    case Pipe(l, r) =>
      Nulterminate(b, l);
      Nulterminate(b, r);
    case List(l, r) =>
      Nulterminate(b, l);
      Nulterminate(b, r);
    case Back(c) => Nulterminate(b, c);
  }

  /**
    parsecmd: panics, or gives a command each of whose words is afterwards a C string in the
    buffer with the text the line had there.
   */
  method Parsecmd(b: array<char>) returns (r: Result<Cmd<Span>>)
    requires b.Length > 0 && b[b.Length - 1] == '\0' && Clean(b[..b.Length - 1])
    modifies b
    ensures r == CmdAt(old(b[..b.Length - 1]))
    ensures r.Panic? ==> b[..] == old(b[..])
    ensures r.Ok? ==> forall w | w in Spans(r.value) :: CString(b[..], w.lo) == Text(old(b[..b.Length - 1]), w)
  {
    hide LineAt;
    var s := b[..b.Length - 1];
    var line := Parseline(s, 0);
    if line.Panic? {
      return Panic(line.msg);
    }
    var more, q := Peek(s, line.value.next, "");
    if q != |s| {
      return Panic("syntax");
    }
    r := Ok(line.value.value);
    LineSpans(s, 0);
    forall w | w in Spans(r.value) ensures w.hi < b.Length {
      SpansAreWords(s, r.value, w);
    }
    assert b[..] == s + ['\0'];
    Nulterminate(b, r.value);
    forall w | w in Spans(r.value) ensures CString(b[..], w.lo) == Text(s, w) {
      WordsTerminated(s, b[..], r.value, w);
    }
  }
}
