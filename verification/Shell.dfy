/**
  The shell's parser (user/sh.c): what each routine reads, as functions of the line and a
  cursor.  A line is the text before its terminating zero; a panic is an error result.
 */
module Shell {

  const MAXARGS: nat := 10

  datatype Result<T> = Ok(value: T) | Panic(msg: string)

  datatype Span = Span(lo: nat, hi: nat)

  /** "<", ">" and ">>". */
  datatype Kind = Read | Truncate | Append

  datatype Cmd<T> =
    | Exec(args: seq<T>)
    | Redir(cmd: Cmd<T>, file: T, kind: Kind)
    | Pipe(left: Cmd<T>, right: Cmd<T>)
    | List(left: Cmd<T>, right: Cmd<T>)
    | Back(cmd: Cmd<T>)

  datatype Redirection<T> = Redirection(file: T, kind: Kind)

  datatype Parsed<T> = Parsed(value: T, next: nat)

  datatype Token = Token(kind: char, lo: nat, hi: nat, next: nat)

  predicate IsSpace(c: char) { c in [' ', '\t', '\r', '\n', '\U{000b}'] }
  predicate IsSymbol(c: char) { c in ['<', '|', '>', '&', ';', '(', ')'] }
  predicate IsWord(c: char) { c != '\0' && !IsSpace(c) && !IsSymbol(c) }

  /** A C string holds no zero before its end. */
  predicate Clean(s: string) { forall i | 0 <= i < |s| :: s[i] != '\0' }

  /** The first character at or after p that is not a space. */
  function Skip(s: string, p: nat): (r: nat)
    requires p <= |s|
    ensures p <= r <= |s| && (r < |s| ==> !IsSpace(s[r])) && forall i | p <= i < r :: IsSpace(s[i])
    decreases |s| - p
  {
    if p < |s| && IsSpace(s[p]) then Skip(s, p + 1) else p
  }

  function WordEnd(s: string, p: nat): (r: nat)
    requires p <= |s|
    ensures p <= r <= |s| && (r < |s| ==> !IsWord(s[r])) && forall i | p <= i < r :: IsWord(s[i])
    decreases |s| - p
  {
    if p < |s| && IsWord(s[p]) then WordEnd(s, p + 1) else p
  }

  /** A maximal run of word characters. */
  ghost predicate WordSpan(s: string, w: Span) {
    && w.lo < w.hi <= |s| && (forall i | w.lo <= i < w.hi :: IsWord(s[i])) && (w.hi < |s| ==> !IsWord(s[w.hi]))
  }

  /** The token at the cursor: '\0' at the end, 'a' for a word, '+' for ">>", otherwise the symbol. */
  function TokenAt(s: string, p: nat): (t: Token)
    requires Clean(s) && p <= |s|
    ensures p <= t.lo <= t.hi <= t.next <= |s|
    ensures t.kind == '\0' <==> t.lo == |s|
    ensures t.kind != '\0' ==> t.lo < t.hi
    ensures t.kind == 'a' ==> WordSpan(s, Span(t.lo, t.hi))
  {
    var q := Skip(s, p);
    if q == |s| then Token('\0', q, q, q)
    else if s[q] == '>' then
      if q + 1 < |s| && s[q + 1] == '>' then Token('+', q, q + 2, Skip(s, q + 2))
        else Token('>', q, q + 1, Skip(s, q + 1))
    else if IsSymbol(s[q]) then Token(s[q], q, q + 1, Skip(s, q + 1))
    else Token('a', q, WordEnd(s, q), Skip(s, WordEnd(s, q)))
  }

  /** Whether the next character is one of the given ones. */
  predicate SeesAt(s: string, p: nat, toks: string)
    requires p <= |s|
  {
    var q := Skip(s, p);
    q < |s| && s[q] in toks
  }

  function KindOf(tok: char): Kind {
    if tok == '<' then Read else if tok == '>' then Truncate else Append
  }

  /** Redirections wrap the command, the first one innermost. */
  function Wrap<T>(cmd: Cmd<T>, rs: seq<Redirection<T>>): Cmd<T>
    decreases |rs|
  {
    if rs == [] then cmd else Redir(Wrap(cmd, rs[..|rs| - 1]), rs[|rs| - 1].file, rs[|rs| - 1].kind)
  }

  /** parseredirs, starting with the redirections rs already read. */
  function RedirsAt(s: string, p: nat, rs: seq<Redirection<Span>>): (r: Result<Parsed<seq<Redirection<Span>>>>)
    requires Clean(s) && p <= |s|
    ensures r.Ok? ==> p <= r.value.next <= |s| && r.value.next == Skip(s, r.value.next)
    decreases |s| - p
  {
    var q := Skip(s, p);
    if !SeesAt(s, p, "<>") then Ok(Parsed(rs, q))
    else
      var op := TokenAt(s, q);
      var f := TokenAt(s, op.next);
      if f.kind != 'a' then Panic("missing file for redirection")
      else RedirsAt(s, f.next, rs + [Redirection(Span(f.lo, f.hi), KindOf(op.kind))])
  }

  datatype Words = Words(args: seq<Span>, rs: seq<Redirection<Span>>)

  /** The loop of parseexec, with the words and redirections read so far. */
  function ArgsAt(s: string, p: nat, w: Words): (r: Result<Parsed<Words>>)
    requires Clean(s) && p <= |s|
    ensures r.Ok? ==> p <= r.value.next <= |s| && r.value.next == Skip(s, r.value.next)
    decreases |s| - p
  {
    var q := Skip(s, p);
    if SeesAt(s, p, "|)&;") then Ok(Parsed(w, q))
    else
      var t := TokenAt(s, q);
      if t.kind == '\0' then Ok(Parsed(w, t.next))
      else if t.kind != 'a' then Panic("syntax")
      else
        var args := w.args + [Span(t.lo, t.hi)];
        if |args| >= MAXARGS then Panic("too many args")
        else
          match RedirsAt(s, t.next, w.rs)
          case Panic(msg) => Panic(msg)
          case Ok(r) => ArgsAt(s, r.next, Words(args, r.value))
  }

  function LineAt(s: string, p: nat): (r: Result<Parsed<Cmd<Span>>>)
    requires Clean(s) && p <= |s|
    ensures r.Ok? ==> p <= r.value.next <= |s|
    decreases |s| - p, 4
  {
    match PipeAt(s, p)
    case Panic(msg) => Panic(msg)
    case Ok(r) =>
      var b := BacksAt(s, r.next, r.value);
      if SeesAt(s, b.next, ";") then
        match LineAt(s, TokenAt(s, b.next).next)
        case Panic(msg) => Panic(msg)
        case Ok(rest) => Ok(Parsed(List(b.value, rest.value), rest.next))
      else Ok(b)
  }

  /** The "&" loop of parseline. */
  function BacksAt(s: string, p: nat, cmd: Cmd<Span>): (r: Parsed<Cmd<Span>>)
    requires Clean(s) && p <= |s|
    ensures p <= r.next <= |s|
    decreases |s| - p
  {
    if SeesAt(s, p, "&") then BacksAt(s, TokenAt(s, p).next, Back(cmd)) else Parsed(cmd, Skip(s, p))
  }

  function PipeAt(s: string, p: nat): (r: Result<Parsed<Cmd<Span>>>)
    requires Clean(s) && p <= |s|
    ensures r.Ok? ==> p <= r.value.next <= |s|
    decreases |s| - p, 3
  {
    match ExecAt(s, p)
    case Panic(msg) => Panic(msg)
    case Ok(r) =>
      if SeesAt(s, r.next, "|") then
        match PipeAt(s, TokenAt(s, r.next).next)
        case Panic(msg) => Panic(msg)
        case Ok(rest) => Ok(Parsed(Pipe(r.value, rest.value), rest.next))
      else Ok(Parsed(r.value, Skip(s, r.next)))
  }

  function ExecAt(s: string, p: nat): (r: Result<Parsed<Cmd<Span>>>)
    requires Clean(s) && p <= |s|
    ensures r.Ok? ==> p <= r.value.next <= |s|
    decreases |s| - p, 2
  {
    if SeesAt(s, p, "(") then BlockAt(s, Skip(s, p))
    else
      match RedirsAt(s, p, [])
      case Panic(msg) => Panic(msg)
      case Ok(r) =>
        match ArgsAt(s, r.next, Words([], r.value))
        case Panic(msg) => Panic(msg)
        case Ok(w) => Ok(Parsed(Wrap(Exec(w.value.args), w.value.rs), w.next))
  }

  function BlockAt(s: string, p: nat): (r: Result<Parsed<Cmd<Span>>>)
    requires Clean(s) && p <= |s|
    ensures r.Ok? ==> p <= r.value.next <= |s|
    decreases |s| - p, 1
  {
    if !SeesAt(s, p, "(") then Panic("parseblock")
    else
      match LineAt(s, TokenAt(s, p).next)
      case Panic(msg) => Panic(msg)
      case Ok(body) =>
        if !SeesAt(s, body.next, ")") then Panic("syntax - missing )")
        else
          match RedirsAt(s, TokenAt(s, body.next).next, [])
          case Panic(msg) => Panic(msg)
          case Ok(r) => Ok(Parsed(Wrap(body.value, r.value), r.next))
  }

  /** parsecmd up to nulterminate. */
  function CmdAt(s: string): Result<Cmd<Span>>
    requires Clean(s)
  {
    match LineAt(s, 0)
    case Panic(msg) => Panic(msg)
    case Ok(r) => if Skip(s, r.next) != |s| then Panic("syntax") else Ok(r.value)
  }

  // ---------------------------------------------------------------------
  // Every word of a parsed command is a whole word of the line

  ghost predicate SpansOk(s: string, cmd: Cmd<Span>) {
    match cmd
    case Exec(args) => |args| < MAXARGS && forall i | 0 <= i < |args| :: WordSpan(s, args[i])
    case Redir(c, file, _) => SpansOk(s, c) && WordSpan(s, file)
    case Pipe(l, r) => SpansOk(s, l) && SpansOk(s, r)
    case List(l, r) => SpansOk(s, l) && SpansOk(s, r)
    case Back(c) => SpansOk(s, c)
  }

  ghost predicate RedirsOk(s: string, rs: seq<Redirection<Span>>) {
    forall i | 0 <= i < |rs| :: WordSpan(s, rs[i].file)
  }

  lemma {:induction false} WrapSpans(s: string, cmd: Cmd<Span>, rs: seq<Redirection<Span>>)
    requires SpansOk(s, cmd) && RedirsOk(s, rs)
    ensures SpansOk(s, Wrap(cmd, rs))
    decreases |rs|
  {
    if rs != [] {
      WrapSpans(s, cmd, rs[..|rs| - 1]);
    }
  }

  lemma {:induction false} RedirsSpans(s: string, p: nat, rs: seq<Redirection<Span>>)
    requires Clean(s) && p <= |s| && RedirsOk(s, rs) && RedirsAt(s, p, rs).Ok?
    ensures RedirsOk(s, RedirsAt(s, p, rs).value.value)
    decreases |s| - p
  {
    hide TokenAt;
    var q := Skip(s, p);
    if SeesAt(s, p, "<>") {
      var op := TokenAt(s, q);
      var f := TokenAt(s, op.next);
      RedirsSpans(s, f.next, rs + [Redirection(Span(f.lo, f.hi), KindOf(op.kind))]);
    }
  }

  lemma {:induction false} ArgsSpans(s: string, p: nat, w: Words)
    requires Clean(s) && p <= |s| && RedirsOk(s, w.rs) && SpansOk(s, Exec(w.args)) && ArgsAt(s, p, w).Ok?
    ensures var r := ArgsAt(s, p, w).value.value; RedirsOk(s, r.rs) && SpansOk(s, Exec(r.args))
    decreases |s| - p
  {
    hide TokenAt, RedirsAt;
    var q := Skip(s, p);
    if !SeesAt(s, p, "|)&;") {
      var t := TokenAt(s, q);
      if t.kind != '\0' {
        RedirsSpans(s, t.next, w.rs);
        var r := RedirsAt(s, t.next, w.rs).value;
        ArgsSpans(s, r.next, Words(w.args + [Span(t.lo, t.hi)], r.value));
      }
    }
  }

  lemma {:induction false} BacksSpans(s: string, p: nat, cmd: Cmd<Span>)
    requires Clean(s) && p <= |s| && SpansOk(s, cmd)
    ensures SpansOk(s, BacksAt(s, p, cmd).value)
    decreases |s| - p
  {
    hide TokenAt;
    if SeesAt(s, p, "&") {
      BacksSpans(s, TokenAt(s, p).next, Back(cmd));
    }
  }

  lemma {:induction false} LineSpans(s: string, p: nat)
    requires Clean(s) && p <= |s| && LineAt(s, p).Ok?
    ensures SpansOk(s, LineAt(s, p).value.value)
    decreases |s| - p, 4
  {
    hide TokenAt;
    PipeSpans(s, p);
    var r := PipeAt(s, p).value;
    BacksSpans(s, r.next, r.value);
    var b := BacksAt(s, r.next, r.value);
    if SeesAt(s, b.next, ";") {
      LineSpans(s, TokenAt(s, b.next).next);
    }
  }

  lemma {:induction false} PipeSpans(s: string, p: nat)
    requires Clean(s) && p <= |s| && PipeAt(s, p).Ok?
    ensures SpansOk(s, PipeAt(s, p).value.value)
    decreases |s| - p, 3
  {
    hide TokenAt;
    ExecSpans(s, p);
    var r := ExecAt(s, p).value;
    if SeesAt(s, r.next, "|") {
      PipeSpans(s, TokenAt(s, r.next).next);
    }
  }

  lemma {:induction false} ExecSpans(s: string, p: nat)
    requires Clean(s) && p <= |s| && ExecAt(s, p).Ok?
    ensures SpansOk(s, ExecAt(s, p).value.value)
    decreases |s| - p, 2
  {
    hide TokenAt, RedirsAt, ArgsAt;
    if SeesAt(s, p, "(") {
      BlockSpans(s, Skip(s, p));
    } else {
      RedirsSpans(s, p, []);
      var r := RedirsAt(s, p, []).value;
      ArgsSpans(s, r.next, Words([], r.value));
      var w := ArgsAt(s, r.next, Words([], r.value)).value.value;
      WrapSpans(s, Exec(w.args), w.rs);
    }
  }

  lemma {:induction false} BlockSpans(s: string, p: nat)
    requires Clean(s) && p <= |s| && BlockAt(s, p).Ok?
    ensures SpansOk(s, BlockAt(s, p).value.value)
    decreases |s| - p, 1
  {
    hide TokenAt, RedirsAt;
    LineSpans(s, TokenAt(s, p).next);
    var body := LineAt(s, TokenAt(s, p).next).value;
    RedirsSpans(s, TokenAt(s, body.next).next, []);
    WrapSpans(s, body.value, RedirsAt(s, TokenAt(s, body.next).next, []).value.value);
  }

  // ---------------------------------------------------------------------
  // The words spelled out

  function Text(s: string, w: Span): string {
    if w.lo <= w.hi <= |s| then s[w.lo..w.hi] else ""
  }

  /** The command with its words spelled out. */
  function Spelled(s: string, cmd: Cmd<Span>): Cmd<string> {
    match cmd
    case Exec(args) => Exec(Texts(s, args))
    case Redir(c, file, kind) => Redir(Spelled(s, c), Text(s, file), kind)
    case Pipe(l, r) => Pipe(Spelled(s, l), Spelled(s, r))
    case List(l, r) => List(Spelled(s, l), Spelled(s, r))
    case Back(c) => Back(Spelled(s, c))
  }

  function Texts(s: string, args: seq<Span>): (r: seq<string>)
    ensures |r| == |args| && forall i | 0 <= i < |args| :: r[i] == Text(s, args[i])
  {
    seq(|args|, i requires 0 <= i < |args| => Text(s, args[i]))
  }

  ghost predicate LegalWord(w: string) { w != "" && forall i | 0 <= i < |w| :: IsWord(w[i]) }

  ghost predicate Legal(c: Cmd<string>) {
    match c
    case Exec(args) => |args| < MAXARGS && forall i | 0 <= i < |args| :: LegalWord(args[i])
    case Redir(c', file, _) => Legal(c') && LegalWord(file)
    case Pipe(l, r) => Legal(l) && Legal(r)
    case List(l, r) => Legal(l) && Legal(r)
    case Back(c') => Legal(c')
  }

  function Sign(k: Kind): string {
    match k
    case Read => "<"
    case Truncate => ">"
    case Append => ">>"
  }

  /** At a symbol other than '>' the token is that symbol. */
  lemma SymbolToken(s: string, p: nat)
    requires Clean(s) && p < |s| && IsSymbol(s[p]) && s[p] != '>'
    ensures !IsSpace(s[p]) && Skip(s, p) == p && TokenAt(s, p) == Token(s[p], p, p + 1, Skip(s, p + 1))
  {
  }

  lemma {:induction false} WordEndIs(s: string, p: nat, q: nat)
    requires p <= q <= |s| && (forall i | p <= i < q :: IsWord(s[i])) && (q < |s| ==> !IsWord(s[q]))
    ensures WordEnd(s, p) == q
    decreases q - p
  {
    if p < q {
      WordEndIs(s, p + 1, q);
    }
  }

  // ---------------------------------------------------------------------
  // nulterminate

  function Spans(cmd: Cmd<Span>): set<Span> {
    match cmd
    case Exec(args) => set w | w in args
    case Redir(c, file, _) => Spans(c) + {file}
    case Pipe(l, r) => Spans(l) + Spans(r)
    case List(l, r) => Spans(l) + Spans(r)
    case Back(c) => Spans(c)
  }

  lemma {:induction false} SpansAreWords(s: string, cmd: Cmd<Span>, w: Span)
    requires SpansOk(s, cmd) && w in Spans(cmd)
    ensures WordSpan(s, w)
    decreases cmd
  {
    match cmd
    case Exec(args) =>
    case Redir(c, file, _) => if w in Spans(c) { SpansAreWords(s, c, w); }
    case Pipe(l, r) => if w in Spans(l) { SpansAreWords(s, l, w); } else { SpansAreWords(s, r, w); }
    case List(l, r) => if w in Spans(l) { SpansAreWords(s, l, w); } else { SpansAreWords(s, r, w); }
    case Back(c) => SpansAreWords(s, c, w);
  }

  /** No end of a word lies inside a word, so no write of nulterminate hits one. */
  lemma EndsOutside(s: string, cmd: Cmd<Span>, v: Span, w: Span)
    requires SpansOk(s, cmd) && v in Spans(cmd) && w in Spans(cmd)
    ensures !(w.lo <= v.hi < w.hi)
  {
    SpansAreWords(s, cmd, v);
    SpansAreWords(s, cmd, w);
  }

  /** The bytes from lo up to the first zero. */
  function CString(b: seq<char>, lo: nat): string
    decreases |b| - lo
  {
    if lo < |b| && b[lo] != '\0' then [b[lo]] + CString(b, lo + 1) else []
  }

  lemma {:induction false} CStringIs(b: seq<char>, lo: nat, hi: nat)
    requires lo <= hi < |b| && b[hi] == '\0' && forall i | lo <= i < hi :: b[i] != '\0'
    ensures CString(b, lo) == b[lo..hi]
    decreases hi - lo
  {
    if lo < hi {
      CStringIs(b, lo + 1, hi);
      assert b[lo..hi] == [b[lo]] + b[lo + 1..hi];
    }
  }

  /** The buffer after a zero has been written at the end of every word. */
  ghost predicate Terminated(b: seq<char>, b': seq<char>, cmd: Cmd<Span>) {
    && |b'| == |b|
    && forall i: nat | i < |b| :: b'[i] == if exists w :: w in Spans(cmd) && w.hi == i then '\0' else b[i]
  }

  /** Every word of the command is then a C string with its own text. */
  lemma WordsTerminated(s: string, b': seq<char>, cmd: Cmd<Span>, w: Span)
    requires Clean(s) && SpansOk(s, cmd) && w in Spans(cmd) && Terminated(s + ['\0'], b', cmd)
    ensures CString(b', w.lo) == Text(s, w)
  {
    SpansAreWords(s, cmd, w);
    assert b'[w.hi] == '\0';
    forall i: nat | w.lo <= i < w.hi ensures b'[i] == s[i] && b'[i] != '\0' {
      forall v | v in Spans(cmd) ensures v.hi != i {
        EndsOutside(s, cmd, v, w);
      }
    }
    CStringIs(b', w.lo, w.hi);
    assert b'[w.lo..w.hi] == s[w.lo..w.hi];
  }
}
