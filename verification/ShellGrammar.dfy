/**
  The language of the shell's command lines (user/sh.c): a grammar over tokens with a meaning for
  each of its trees.  The parser accepts a line exactly when its tokens are those of a tree, and
  the command it builds is that tree's meaning.
 */
module ShellGrammar {
  import opened Shell

  datatype Lexeme = Word(text: string) | Arrow(kind: Kind) | Mark(symbol: char)

  /** What a simple command is made of, in any order. */
  datatype Item = Arg(text: string) | To(kind: Kind, file: string)

  datatype Stage = Simple(items: seq<Item>) | Block(body: Line, rs: seq<Redirection<string>>)

  datatype Pipeline = Last(stage: Stage) | Piped(stage: Stage, rest: Pipeline)

  /** A pipeline, its ampersands, and perhaps ";" and another line. */
  datatype Line = Alone(pipe: Pipeline, backs: nat) | Then(pipe: Pipeline, backs: nat, rest: Line)

  // ---------------------------------------------------------------------
  // The tokens of a tree

  function RedirTokens(rs: seq<Redirection<string>>): seq<Lexeme> {
    if rs == [] then [] else [Arrow(rs[0].kind), Word(rs[0].file)] + RedirTokens(rs[1..])
  }

  function ItemTokens(items: seq<Item>): seq<Lexeme> {
    if items == [] then []
    else
      match items[0]
      case Arg(text) => [Word(text)] + ItemTokens(items[1..])
      case To(kind, file) => [Arrow(kind), Word(file)] + ItemTokens(items[1..])
  }

  function StageTokens(t: Stage): seq<Lexeme> {
    match t
    case Simple(items) => ItemTokens(items)
    case Block(body, rs) => [Mark('(')] + (LineTokens(body) + ([Mark(')')] + RedirTokens(rs)))
  }

  function PipeTokens(t: Pipeline): seq<Lexeme> {
    match t
    case Last(stage) => StageTokens(stage)
    case Piped(stage, rest) => StageTokens(stage) + ([Mark('|')] + PipeTokens(rest))
  }

  function Ampersands(n: nat): seq<Lexeme> {
    if n == 0 then [] else [Mark('&')] + Ampersands(n - 1)
  }

  function LineTokens(t: Line): seq<Lexeme> {
    match t
    case Alone(pipe, backs) => PipeTokens(pipe) + Ampersands(backs)
    case Then(pipe, backs, rest) => PipeTokens(pipe) + (Ampersands(backs) + ([Mark(';')] + LineTokens(rest)))
  }

  // ---------------------------------------------------------------------
  // The command a tree stands for

  function Args(items: seq<Item>): seq<string> {
    if items == [] then []
    else
      match items[0]
      case Arg(text) => [text] + Args(items[1..])
      case To(_, _) => Args(items[1..])
  }

  /** The redirections of a simple command, in the order of their signs. */
  function Redirections(items: seq<Item>): seq<Redirection<string>> {
    if items == [] then []
    else
      match items[0]
      case Arg(_) => Redirections(items[1..])
      case To(kind, file) => [Redirection(file, kind)] + Redirections(items[1..])
  }

  /** The words, inside one Redir per sign, the first sign innermost. */
  function SimpleMeaning(items: seq<Item>): Cmd<string> { Wrap(Exec(Args(items)), Redirections(items)) }

  function StageMeaning(t: Stage): Cmd<string> {
    match t
    case Simple(items) => SimpleMeaning(items)
    case Block(body, rs) => Wrap(LineMeaning(body), rs)
  }

  function PipeMeaning(t: Pipeline): Cmd<string> {
    match t
    case Last(stage) => StageMeaning(stage)
    case Piped(stage, rest) => Pipe(StageMeaning(stage), PipeMeaning(rest))
  }

  function Backs<T>(cmd: Cmd<T>, n: nat): Cmd<T>
    decreases n
  {
    if n == 0 then cmd else Backs(Back(cmd), n - 1)
  }

  function LineMeaning(t: Line): Cmd<string> {
    match t
    case Alone(pipe, backs) => Backs(PipeMeaning(pipe), backs)
    case Then(pipe, backs, rest) => List(Backs(PipeMeaning(pipe), backs), LineMeaning(rest))
  }

  /** No simple command has more words than argv takes. */
  ghost predicate StageFits(t: Stage) {
    match t
    case Simple(items) => |Args(items)| < MAXARGS
    case Block(body, _) => LineFits(body)
  }

  ghost predicate PipeFits(t: Pipeline) {
    StageFits(t.stage) && (t.Piped? ==> PipeFits(t.rest))
  }

  ghost predicate LineFits(t: Line) {
    PipeFits(t.pipe) && (t.Then? ==> LineFits(t.rest))
  }

  // ---------------------------------------------------------------------
  // The tokens of a line

  function LexemeOf(s: string, t: Token): Lexeme
    requires t.lo <= t.hi <= |s|
  {
    if t.kind == 'a' then Word(s[t.lo..t.hi])
    else if t.kind == '<' || t.kind == '>' || t.kind == '+' then Arrow(KindOf(t.kind))
    else Mark(t.kind)
  }

  /** The tokens from p on. */
  function Lexemes(s: string, p: nat): seq<Lexeme>
    requires Clean(s) && p <= |s|
    decreases |s| - p
  {
    var t := TokenAt(s, p);
    if t.kind == '\0' then [] else [LexemeOf(s, t)] + Lexemes(s, t.next)
  }

  lemma SkipTwice(s: string, p: nat)
    requires Clean(s) && p <= |s|
    ensures Skip(s, Skip(s, p)) == Skip(s, p) && TokenAt(s, Skip(s, p)) == TokenAt(s, p)
    ensures Lexemes(s, Skip(s, p)) == Lexemes(s, p)
  {
    hide IsSpace, IsSymbol, IsWord;
  }

  /** The first token is one of the given symbols. */
  predicate Starts(ts: seq<Lexeme>, toks: string) {
    ts != [] && ts[0].Mark? && ts[0].symbol in toks
  }

  /** Peeking sees the first token. */
  lemma Peeks(s: string, p: nat, toks: string)
    requires Clean(s) && p <= |s| && forall c | c in toks :: IsSymbol(c) && c != '<' && c != '>'
    ensures SeesAt(s, p, toks) <==> Starts(Lexemes(s, p), toks)
  {
  }

  lemma PeeksArrow(s: string, p: nat)
    requires Clean(s) && p <= |s|
    ensures SeesAt(s, p, "<>") <==> Lexemes(s, p) != [] && Lexemes(s, p)[0].Arrow?
  {
  }

  /** The first token and those after it. */
  lemma First(s: string, p: nat)
    requires Clean(s) && p <= |s| && Lexemes(s, p) != []
    ensures var t := TokenAt(s, p);
            && t.kind != '\0' && Lexemes(s, p)[0] == LexemeOf(s, t) && Lexemes(s, t.next) == Lexemes(s, p)[1..]
            && (t.kind == 'a' <==> Lexemes(s, p)[0].Word?)
            && (t.kind == 'a' ==> Lexemes(s, p)[0].text == Text(s, Span(t.lo, t.hi)))
            && (Lexemes(s, p)[0].Arrow? ==> KindOf(t.kind) == Lexemes(s, p)[0].kind)
            && (Lexemes(s, p)[0].Mark? ==> Lexemes(s, p)[0].symbol == t.kind && t.kind in "|&;()")
  {
  }

  // ---------------------------------------------------------------------
  // Simple commands

  function Files(s: string, rs: seq<Redirection<Span>>): (r: seq<Redirection<string>>)
    ensures |r| == |rs| && forall i | 0 <= i < |rs| :: r[i] == Redirection(Text(s, rs[i].file), rs[i].kind)
  {
    seq(|rs|, i requires 0 <= i < |rs| => Redirection(Text(s, rs[i].file), rs[i].kind))
  }

  /** What parseexec reads once w has been read and redirections may follow. */
  function Simply(s: string, p: nat, w: Words): (r: Result<Parsed<Words>>)
    requires Clean(s) && p <= |s|
    ensures r.Ok? ==> p <= r.value.next <= |s|
  {
    match RedirsAt(s, p, w.rs)
    case Panic(msg) => Panic(msg)
    case Ok(r) => ArgsAt(s, r.next, Words(w.args, r.value))
  }

  /** A sign and its file are taken; a sign without a file is refused. */
  lemma TakeRedir(s: string, p: nat, rs: seq<Redirection<Span>>) returns (r: Redirection<Span>, next: nat)
    requires Clean(s) && p <= |s| && Lexemes(s, p) != [] && Lexemes(s, p)[0].Arrow?
    ensures var ts := Lexemes(s, p);
            if |ts| > 1 && ts[1].Word? then
              && p < next <= |s| && RedirsAt(s, p, rs) == RedirsAt(s, next, rs + [r]) && Lexemes(s, next) == ts[2..]
              && Text(s, r.file) == ts[1].text && r.kind == ts[0].kind
            else RedirsAt(s, p, rs).Panic?
  {
    hide TokenAt, Lexemes, SeesAt, Skip, LexemeOf, Text;
    SkipTwice(s, p);
    PeeksArrow(s, p);
    First(s, p);
    var op := TokenAt(s, p);
    var f := TokenAt(s, op.next);
    r, next := Redirection(Span(f.lo, f.hi), KindOf(op.kind)), f.next;
    if Lexemes(s, op.next) != [] {
      First(s, op.next);
    } else {
      NoToken(s, op.next);
    }
  }

  lemma NoToken(s: string, p: nat)
    requires Clean(s) && p <= |s| && Lexemes(s, p) == []
    ensures TokenAt(s, p).kind == '\0' && Lexemes(s, TokenAt(s, p).next) == []
  {
  }

  lemma NoRedir(s: string, p: nat, rs: seq<Redirection<Span>>)
    requires Clean(s) && p <= |s| && (Lexemes(s, p) == [] || !Lexemes(s, p)[0].Arrow?)
    ensures RedirsAt(s, p, rs) == Ok(Parsed(rs, Skip(s, p)))
  {
    hide TokenAt, Lexemes, SeesAt, Skip;
    PeeksArrow(s, p);
  }

  /** A word is taken while argv has room. */
  lemma TakeWord(s: string, p: nat, w: Words) returns (arg: Span, next: nat)
    requires Clean(s) && p <= |s| && Lexemes(s, p) != [] && Lexemes(s, p)[0].Word?
    ensures if |w.args| + 1 < MAXARGS then
              && p < next <= |s| && Simply(s, p, w) == Simply(s, next, Words(w.args + [arg], w.rs))
              && Lexemes(s, next) == Lexemes(s, p)[1..] && Text(s, arg) == Lexemes(s, p)[0].text
            else Simply(s, p, w).Panic?
  {
    hide TokenAt, Lexemes, SeesAt, Skip, LexemeOf, Text, RedirsAt;
    NoRedir(s, p, w.rs);
    SkipTwice(s, p);
    Peeks(s, Skip(s, p), "|)&;");
    First(s, p);
    var t := TokenAt(s, p);
    arg, next := Span(t.lo, t.hi), t.next;
  }

  /** Anything but a word or a sign ends a simple command; "(" is refused. */
  lemma NoItem(s: string, p: nat, w: Words)
    requires Clean(s) && p <= |s| && (Lexemes(s, p) == [] || Lexemes(s, p)[0].Mark?)
    ensures if Starts(Lexemes(s, p), "(") then Simply(s, p, w).Panic?
            else
              && Simply(s, p, w).Ok? && Simply(s, p, w).value.value == w
              && Lexemes(s, Simply(s, p, w).value.next) == Lexemes(s, p)
  {
    hide TokenAt, Lexemes, SeesAt, Skip, LexemeOf, RedirsAt;
    NoRedir(s, p, w.rs);
    SkipTwice(s, p);
    Peeks(s, Skip(s, p), "|)&;");
    if Lexemes(s, p) == [] {
      NoToken(s, p);
    } else {
      First(s, p);
    }
  }

  /** Where the items of a simple command end. */
  predicate ItemsEnd(ts: seq<Lexeme>) { ts == [] || Starts(ts, "|)&;") }

  /** r was read after w and holds the items as well. */
  ghost predicate Holds(s: string, w: Words, items: seq<Item>, r: Words) {
    Texts(s, r.args) == Texts(s, w.args) + Args(items) && Files(s, r.rs) == Files(s, w.rs) + Redirections(items)
  }

  lemma ItemsMore(item: Item, items: seq<Item>)
    ensures Args([item] + items) == Args([item]) + Args(items)
    ensures Redirections([item] + items) == Redirections([item]) + Redirections(items)
  {
    assert ([item] + items)[1..] == items && [item][1..] == [];
  }

  lemma HoldsMore(s: string, w: Words, w': Words, item: Item, items: seq<Item>, r: Words)
    requires Holds(s, w, [item], w') && Holds(s, w', items, r)
    ensures Holds(s, w, [item] + items, r)
  {
    hide Texts, Files, Args, Redirections;
    ItemsMore(item, items);
  }

  lemma HoldsOne(s: string, w: Words, arg: Span, r: Redirection<Span>)
    ensures Holds(s, w, [], w)
    ensures Holds(s, w, [Arg(Text(s, arg))], Words(w.args + [arg], w.rs))
    ensures Holds(s, w, [To(r.kind, Text(s, r.file))], Words(w.args, w.rs + [r]))
  {
    hide Text;
    var a, t := Arg(Text(s, arg)), To(r.kind, Text(s, r.file));
    assert Args([a]) == [Text(s, arg)] && Redirections([a]) == [];
    assert Args([t]) == [] && Redirections([t]) == [Redirection(Text(s, r.file), r.kind)];
    assert Texts(s, w.args + [arg]) == Texts(s, w.args) + [Text(s, arg)];
    assert Files(s, w.rs + [r]) == Files(s, w.rs) + [Redirection(Text(s, r.file), r.kind)];
  }

  lemma {:induction false} ItemsComplete(s: string, p: nat, items: seq<Item>, w: Words, rest: seq<Lexeme>)
    requires Clean(s) && p <= |s| && Lexemes(s, p) == ItemTokens(items) + rest && ItemsEnd(rest)
    requires |w.args| + |Args(items)| < MAXARGS
    ensures var r := Simply(s, p, w);
            r.Ok? && Lexemes(s, r.value.next) == rest && Holds(s, w, items, r.value.value)
    decreases |items|
  {
    hide Lexemes, Simply, Texts, Files, Text, Holds;
    if items == [] {
      NoItem(s, p, w);
      HoldsOne(s, w, Span(0, 0), Redirection(Span(0, 0), Read));
    } else {
      var ts := ItemTokens(items[1..]) + rest;
      assert items == [items[0]] + items[1..];
      match items[0]
      case Arg(text) =>
        assert Lexemes(s, p) == [Word(text)] + ts;
        var arg, next := TakeWord(s, p, w);
        var w' := Words(w.args + [arg], w.rs);
        HoldsOne(s, w, arg, Redirection(Span(0, 0), Read));
        ItemsComplete(s, next, items[1..], w', rest);
        HoldsMore(s, w, w', items[0], items[1..], Simply(s, p, w).value.value);
      case To(kind, file) =>
        assert Lexemes(s, p) == [Arrow(kind), Word(file)] + ts;
        var r, next := TakeItem(s, p, w);
        var w' := Words(w.args, w.rs + [r]);
        HoldsOne(s, w, Span(0, 0), r);
        ItemsComplete(s, next, items[1..], w', rest);
        HoldsMore(s, w, w', items[0], items[1..], Simply(s, p, w).value.value);
    }
  }

  /** TakeRedir among the words of a simple command. */
  lemma TakeItem(s: string, p: nat, w: Words) returns (r: Redirection<Span>, next: nat)
    requires Clean(s) && p <= |s| && Lexemes(s, p) != [] && Lexemes(s, p)[0].Arrow?
    ensures var ts := Lexemes(s, p);
            if |ts| > 1 && ts[1].Word? then
              && p < next <= |s| && Simply(s, p, w) == Simply(s, next, Words(w.args, w.rs + [r]))
              && Lexemes(s, next) == ts[2..] && Text(s, r.file) == ts[1].text && r.kind == ts[0].kind
            else Simply(s, p, w).Panic?
  {
    hide Lexemes, RedirsAt, ArgsAt, Text;
    r, next := TakeRedir(s, p, w.rs);
  }

  lemma {:induction false} ItemsSound(s: string, p: nat, w: Words) returns (items: seq<Item>)
    requires Clean(s) && p <= |s| && Simply(s, p, w).Ok? && |w.args| < MAXARGS
    ensures var r := Simply(s, p, w).value;
            && Lexemes(s, p) == ItemTokens(items) + Lexemes(s, r.next)
            && |w.args| + |Args(items)| < MAXARGS && Holds(s, w, items, r.value)
    decreases |s| - p
  {
    hide Lexemes, Simply, Texts, Files, Text, Holds;
    var ts := Lexemes(s, p);
    if ts != [] && ts[0].Word? {
      var arg, next := TakeWord(s, p, w);
      var w' := Words(w.args + [arg], w.rs);
      HoldsOne(s, w, arg, Redirection(Span(0, 0), Read));
      var more := ItemsSound(s, next, w');
      items := [Arg(ts[0].text)] + more;
      assert items[1..] == more && ts == [ts[0]] + ts[1..];
      HoldsMore(s, w, w', items[0], more, Simply(s, p, w).value.value);
    } else if ts != [] && ts[0].Arrow? {
      var r, next := TakeItem(s, p, w);
      var w' := Words(w.args, w.rs + [r]);
      HoldsOne(s, w, Span(0, 0), r);
      var more := ItemsSound(s, next, w');
      items := [To(ts[0].kind, ts[1].text)] + more;
      assert items[1..] == more && ts == [ts[0], ts[1]] + ts[2..];
      HoldsMore(s, w, w', items[0], more, Simply(s, p, w).value.value);
    } else {
      items := [];
      NoItem(s, p, w);
      HoldsOne(s, w, Span(0, 0), Redirection(Span(0, 0), Read));
    }
  }

  // ---------------------------------------------------------------------
  // Lines

  lemma {:induction false} RedirsComplete(s: string, p: nat, rs: seq<Redirection<string>>,
                                          before: seq<Redirection<Span>>, rest: seq<Lexeme>)
    requires Clean(s) && p <= |s| && Lexemes(s, p) == RedirTokens(rs) + rest && (rest == [] || !rest[0].Arrow?)
    ensures var r := RedirsAt(s, p, before);
            && r.Ok? && Lexemes(s, r.value.next) == rest && Files(s, r.value.value) == Files(s, before) + rs
    decreases |rs|
  {
    hide Lexemes, RedirsAt, Text;
    if rs == [] {
      NoRedir(s, p, before);
      SkipTwice(s, p);
    } else {
      assert Lexemes(s, p) == [Arrow(rs[0].kind), Word(rs[0].file)] + (RedirTokens(rs[1..]) + rest);
      var r, next := TakeRedir(s, p, before);
      RedirsComplete(s, next, rs[1..], before + [r], rest);
      assert Files(s, before + [r]) == Files(s, before) + [rs[0]];
      assert Files(s, before) + [rs[0]] + rs[1..] == Files(s, before) + rs;
    }
  }

  lemma {:induction false} RedirsSound(s: string, p: nat, before: seq<Redirection<Span>>)
      returns (rs: seq<Redirection<string>>)
    requires Clean(s) && p <= |s| && RedirsAt(s, p, before).Ok?
    ensures var r := RedirsAt(s, p, before).value;
            Lexemes(s, p) == RedirTokens(rs) + Lexemes(s, r.next) && Files(s, r.value) == Files(s, before) + rs
    decreases |s| - p
  {
    hide Lexemes, RedirsAt, Text;
    var ts := Lexemes(s, p);
    if ts != [] && ts[0].Arrow? {
      var r, next := TakeRedir(s, p, before);
      var more := RedirsSound(s, next, before + [r]);
      rs := [Redirection(ts[1].text, ts[0].kind)] + more;
      assert rs[1..] == more && ts == [ts[0], ts[1]] + ts[2..];
      assert Files(s, before + [r]) == Files(s, before) + [rs[0]];
      assert Files(s, before) + [rs[0]] + more == Files(s, before) + rs;
    } else {
      rs := [];
      NoRedir(s, p, before);
      SkipTwice(s, p);
    }
  }

  lemma {:induction false} SpelledWrap(s: string, cmd: Cmd<Span>, rs: seq<Redirection<Span>>)
    ensures Spelled(s, Wrap(cmd, rs)) == Wrap(Spelled(s, cmd), Files(s, rs))
    decreases |rs|
  {
    if rs != [] {
      SpelledWrap(s, cmd, rs[..|rs| - 1]);
      assert Files(s, rs)[..|rs| - 1] == Files(s, rs[..|rs| - 1]);
    }
  }

  lemma {:induction false} SpelledBacks(s: string, cmd: Cmd<Span>, n: nat)
    ensures Spelled(s, Backs(cmd, n)) == Backs(Spelled(s, cmd), n)
    decreases n
  {
    if n > 0 {
      SpelledBacks(s, Back(cmd), n - 1);
    }
  }

  /** A parse that spells cmd and leaves the tokens in rest. */
  ghost predicate Reads(s: string, r: Result<Parsed<Cmd<Span>>>, cmd: Cmd<string>, rest: seq<Lexeme>)
    requires Clean(s)
  {
    r.Ok? && r.value.next <= |s| && Spelled(s, r.value.value) == cmd && Lexemes(s, r.value.next) == rest
  }

  /** One symbol, taken. */
  lemma TakeMark(s: string, p: nat, c: char, rest: seq<Lexeme>)
    requires Clean(s) && p <= |s| && Lexemes(s, p) == [Mark(c)] + rest
    ensures p < TokenAt(s, p).next <= |s| && Lexemes(s, TokenAt(s, p).next) == rest
  {
    hide Lexemes;
    First(s, p);
  }

  lemma {:induction false} BacksComplete(s: string, p: nat, cmd: Cmd<Span>, n: nat, rest: seq<Lexeme>)
    requires Clean(s) && p <= |s| && Lexemes(s, p) == Ampersands(n) + rest && !Starts(rest, "&")
    ensures BacksAt(s, p, cmd).value == Backs(cmd, n) && Lexemes(s, BacksAt(s, p, cmd).next) == rest
    decreases n
  {
    hide Lexemes, TokenAt, SeesAt, Skip;
    Peeks(s, p, "&");
    if n == 0 {
      SkipTwice(s, p);
    } else {
      assert Lexemes(s, p) == [Mark('&')] + (Ampersands(n - 1) + rest);
      TakeMark(s, p, '&', Ampersands(n - 1) + rest);
      BacksComplete(s, TokenAt(s, p).next, Back(cmd), n - 1, rest);
    }
  }

  lemma {:induction false} BacksSound(s: string, p: nat, cmd: Cmd<Span>) returns (n: nat)
    requires Clean(s) && p <= |s|
    ensures BacksAt(s, p, cmd).value == Backs(cmd, n)
    ensures Lexemes(s, p) == Ampersands(n) + Lexemes(s, BacksAt(s, p, cmd).next)
    decreases |s| - p
  {
    hide Lexemes, TokenAt, SeesAt, Skip;
    Peeks(s, p, "&");
    if SeesAt(s, p, "&") {
      var ts := Lexemes(s, p);
      assert ts == [Mark('&')] + ts[1..];
      TakeMark(s, p, '&', ts[1..]);
      var k := BacksSound(s, TokenAt(s, p).next, Back(cmd));
      n := k + 1;
    } else {
      n := 0;
      SkipTwice(s, p);
    }
  }

  /** parseexec of a simple command. */
  lemma SimpleAt(s: string, p: nat)
    requires Clean(s) && p <= |s| && !Starts(Lexemes(s, p), "(")
    ensures var r := Simply(s, p, Words([], []));
            if r.Ok? then ExecAt(s, p) == Ok(Parsed(Wrap(Exec(r.value.value.args), r.value.value.rs), r.value.next))
            else ExecAt(s, p).Panic?
  {
    hide Lexemes, SeesAt, RedirsAt, ArgsAt;
    Peeks(s, p, "(");
  }

  lemma SimpleSpelled(s: string, items: seq<Item>, r: Words)
    requires Holds(s, Words([], []), items, r)
    ensures Spelled(s, Wrap(Exec(r.args), r.rs)) == StageMeaning(Simple(items))
  {
    hide Args, Redirections, Wrap;
    assert Texts(s, r.args) == Args(items) && Files(s, r.rs) == Redirections(items);
    SpelledWrap(s, Exec(r.args), r.rs);
  }

  lemma SimpleComplete(s: string, p: nat, items: seq<Item>, rest: seq<Lexeme>)
    requires Clean(s) && p <= |s| && |Args(items)| < MAXARGS
    requires Lexemes(s, p) == ItemTokens(items) + rest && ItemsEnd(rest)
    ensures Reads(s, ExecAt(s, p), StageMeaning(Simple(items)), rest)
  {
    hide Lexemes, ExecAt, Simply, StageMeaning, Args, Holds;
    ItemsComplete(s, p, items, Words([], []), rest);
    SimpleAt(s, p);
    SimpleSpelled(s, items, Simply(s, p, Words([], [])).value.value);
  }

  lemma BlockParts(body: Line, rs: seq<Redirection<string>>, rest: seq<Lexeme>)
    ensures StageTokens(Block(body, rs)) + rest ==
            [Mark('(')] + (LineTokens(body) + ([Mark(')')] + (RedirTokens(rs) + rest)))
  {
    hide LineTokens, RedirTokens;
  }

  /** parseblock, in terms of its body. */
  lemma BlockReads(s: string, p: nat, body: Line, rs: seq<Redirection<string>>, rest: seq<Lexeme>)
    requires Clean(s) && p <= |s| && Starts(Lexemes(s, p), "(") && (rest == [] || !rest[0].Arrow?)
    requires Reads(s, LineAt(s, TokenAt(s, p).next), LineMeaning(body), [Mark(')')] + (RedirTokens(rs) + rest))
    ensures Reads(s, BlockAt(s, p), StageMeaning(Block(body, rs)), rest)
  {
    hide Lexemes, TokenAt, SeesAt, RedirsAt, LineAt, RedirTokens, LineMeaning;
    Peeks(s, p, "(");
    var r := LineAt(s, TokenAt(s, p).next).value;
    Peeks(s, r.next, ")");
    TakeMark(s, r.next, ')', RedirTokens(rs) + rest);
    var q := TokenAt(s, r.next).next;
    RedirsComplete(s, q, rs, [], rest);
    var found := RedirsAt(s, q, []).value.value;
    SpelledWrap(s, r.value, found);
    assert Files(s, found) == rs;
  }

  lemma {:induction false} StageComplete(s: string, p: nat, t: Stage, rest: seq<Lexeme>)
    requires Clean(s) && p <= |s| && StageFits(t) && Lexemes(s, p) == StageTokens(t) + rest && ItemsEnd(rest)
    ensures Reads(s, ExecAt(s, p), StageMeaning(t), rest)
    decreases t
  {
    hide Lexemes, TokenAt, SeesAt, Skip, RedirsAt, ArgsAt, LineAt, BlockAt, LineTokens, RedirTokens, StageMeaning;
    match t
    case Simple(items) => SimpleComplete(s, p, items, rest);
    case Block(body, rs) =>
      BlockParts(body, rs, rest);
      var q := Skip(s, p);
      SkipTwice(s, p);
      Peeks(s, p, "(");
      var close := [Mark(')')] + (RedirTokens(rs) + rest);
      TakeMark(s, q, '(', LineTokens(body) + close);
      LineComplete(s, TokenAt(s, q).next, body, close);
      BlockReads(s, q, body, rs, rest);
  }

  lemma {:induction false} PipeComplete(s: string, p: nat, t: Pipeline, rest: seq<Lexeme>)
    requires Clean(s) && p <= |s| && PipeFits(t) && Lexemes(s, p) == PipeTokens(t) + rest
    requires rest == [] || Starts(rest, ")&;")
    ensures Reads(s, PipeAt(s, p), PipeMeaning(t), rest)
    decreases t
  {
    hide Lexemes, TokenAt, SeesAt, Skip, ExecAt, StageTokens, StageMeaning;
    match t
    case Last(stage) =>
      StageComplete(s, p, stage, rest);
      Peeks(s, ExecAt(s, p).value.next, "|");
      SkipTwice(s, ExecAt(s, p).value.next);
    case Piped(stage, more) =>
      assert Lexemes(s, p) == StageTokens(stage) + ([Mark('|')] + (PipeTokens(more) + rest));
      StageComplete(s, p, stage, [Mark('|')] + (PipeTokens(more) + rest));
      var next := ExecAt(s, p).value.next;
      Peeks(s, next, "|");
      TakeMark(s, next, '|', PipeTokens(more) + rest);
      PipeComplete(s, TokenAt(s, next).next, more, rest);
  }

  lemma {:induction false} LineComplete(s: string, p: nat, t: Line, rest: seq<Lexeme>)
    requires Clean(s) && p <= |s| && LineFits(t) && Lexemes(s, p) == LineTokens(t) + rest
    requires rest == [] || Starts(rest, ")")
    ensures Reads(s, LineAt(s, p), LineMeaning(t), rest)
    decreases t
  {
    hide Lexemes, TokenAt, SeesAt, Skip, PipeAt, BacksAt, PipeTokens, PipeMeaning;
    var tail := if t.Alone? then rest else [Mark(';')] + (LineTokens(t.rest) + rest);
    assert Lexemes(s, p) == PipeTokens(t.pipe) + (Ampersands(t.backs) + tail);
    PipeComplete(s, p, t.pipe, Ampersands(t.backs) + tail);
    var r := PipeAt(s, p).value;
    BacksComplete(s, r.next, r.value, t.backs, tail);
    SpelledBacks(s, r.value, t.backs);
    var next := BacksAt(s, r.next, r.value).next;
    Peeks(s, next, ";");
    if t.Then? {
      TakeMark(s, next, ';', LineTokens(t.rest) + rest);
      LineComplete(s, TokenAt(s, next).next, t.rest, rest);
    }
  }

  lemma {:induction false} StageSound(s: string, p: nat) returns (t: Stage)
    requires Clean(s) && p <= |s| && ExecAt(s, p).Ok?
    ensures var r := ExecAt(s, p).value;
            && StageFits(t) && Lexemes(s, p) == StageTokens(t) + Lexemes(s, r.next)
            && Spelled(s, r.value) == StageMeaning(t)
    decreases |s| - p, 2
  {
    hide Lexemes, TokenAt, SeesAt, Skip, RedirsAt, ArgsAt, LineAt, Simply, Holds, Files;
    Peeks(s, p, "(");
    if SeesAt(s, p, "(") {
      t := BlockSound(s, Skip(s, p));
      SkipTwice(s, p);
    } else {
      SimpleAt(s, p);
      var items := ItemsSound(s, p, Words([], []));
      SimpleSpelled(s, items, Simply(s, p, Words([], [])).value.value);
      t := Simple(items);
    }
  }

  lemma {:induction false} BlockSound(s: string, p: nat) returns (t: Stage)
    requires Clean(s) && p <= |s| && BlockAt(s, p).Ok?
    ensures var r := BlockAt(s, p).value;
            && StageFits(t) && Lexemes(s, p) == StageTokens(t) + Lexemes(s, r.next)
            && Spelled(s, r.value) == StageMeaning(t)
    decreases |s| - p, 1
  {
    hide Lexemes, TokenAt, SeesAt, Skip, RedirsAt, LineAt, LineTokens, LineMeaning, StageTokens, RedirTokens;
    var ts := Lexemes(s, p);
    Peeks(s, p, "(");
    TakeMark(s, p, '(', ts[1..]);
    var body := LineSound(s, TokenAt(s, p).next);
    var r := LineAt(s, TokenAt(s, p).next).value;
    var more := Lexemes(s, r.next);
    Peeks(s, r.next, ")");
    TakeMark(s, r.next, ')', more[1..]);
    var q := TokenAt(s, r.next).next;
    var rs := RedirsSound(s, q, []);
    SpelledWrap(s, r.value, RedirsAt(s, q, []).value.value);
    assert Files(s, RedirsAt(s, q, []).value.value) == rs;
    t := Block(body, rs);
    BlockParts(body, rs, Lexemes(s, RedirsAt(s, q, []).value.next));
    assert ts == [Mark('(')] + ts[1..] && more == [Mark(')')] + more[1..];
  }

  lemma {:induction false} PipeSound(s: string, p: nat) returns (t: Pipeline)
    requires Clean(s) && p <= |s| && PipeAt(s, p).Ok?
    ensures var r := PipeAt(s, p).value;
            && PipeFits(t) && Lexemes(s, p) == PipeTokens(t) + Lexemes(s, r.next)
            && Spelled(s, r.value) == PipeMeaning(t)
    decreases |s| - p, 3
  {
    hide Lexemes, TokenAt, SeesAt, Skip, ExecAt, StageTokens, StageMeaning;
    var stage := StageSound(s, p);
    var next := ExecAt(s, p).value.next;
    Peeks(s, next, "|");
    if SeesAt(s, next, "|") {
      var ts := Lexemes(s, next);
      TakeMark(s, next, '|', ts[1..]);
      var more := PipeSound(s, TokenAt(s, next).next);
      t := Piped(stage, more);
    } else {
      SkipTwice(s, next);
      t := Last(stage);
    }
  }

  lemma {:induction false} LineSound(s: string, p: nat) returns (t: Line)
    requires Clean(s) && p <= |s| && LineAt(s, p).Ok?
    ensures var r := LineAt(s, p).value;
            && LineFits(t) && Lexemes(s, p) == LineTokens(t) + Lexemes(s, r.next)
            && Spelled(s, r.value) == LineMeaning(t)
    decreases |s| - p, 4
  {
    hide Lexemes, TokenAt, SeesAt, Skip, PipeAt, BacksAt, PipeTokens, PipeMeaning;
    var pipe := PipeSound(s, p);
    var r := PipeAt(s, p).value;
    var backs := BacksSound(s, r.next, r.value);
    SpelledBacks(s, r.value, backs);
    var next := BacksAt(s, r.next, r.value).next;
    Peeks(s, next, ";");
    if SeesAt(s, next, ";") {
      var ts := Lexemes(s, next);
      TakeMark(s, next, ';', ts[1..]);
      var more := LineSound(s, TokenAt(s, next).next);
      t := Then(pipe, backs, more);
    } else {
      t := Alone(pipe, backs);
    }
  }

  /** The parser builds the meaning of any tree whose tokens the line has. */
  lemma Accepts(s: string, t: Line)
    requires Clean(s) && LineFits(t) && Lexemes(s, 0) == LineTokens(t)
    ensures CmdAt(s).Ok? && Spelled(s, CmdAt(s).value) == LineMeaning(t)
  {
    hide LineAt, LineTokens, LineMeaning, Lexemes;
    assert LineTokens(t) + [] == LineTokens(t);
    LineComplete(s, 0, t, []);
    NoTokenLeft(s, LineAt(s, 0).value.next);
  }

  /** And it accepts nothing else. */
  lemma AcceptsExactly(s: string)
    requires Clean(s)
    ensures CmdAt(s).Ok? <==> exists t :: LineFits(t) && LineTokens(t) == Lexemes(s, 0)
  {
    hide LineAt, LineTokens, LineMeaning, Lexemes, LineFits;
    if CmdAt(s).Ok? {
      var t := LineSound(s, 0);
      NoTokenLeft(s, LineAt(s, 0).value.next);
    }
    if t :| LineFits(t) && LineTokens(t) == Lexemes(s, 0) {
      Accepts(s, t);
    }
  }

  lemma NoTokenLeft(s: string, p: nat)
    requires Clean(s) && p <= |s|
    ensures Lexemes(s, p) == [] <==> Skip(s, p) == |s|
  {
  }

  // ---------------------------------------------------------------------
  // Writing tokens down

  function Glyph(l: Lexeme): string {
    match l
    case Word(text) => text
    case Arrow(kind) => Sign(kind)
    case Mark(c) => [c]
  }

  ghost predicate LegalLexeme(l: Lexeme) {
    && (l.Word? ==> LegalWord(l.text))
    && (l.Mark? ==> l.symbol in "|&;()")
  }

  ghost predicate LegalLexemes(ts: seq<Lexeme>) { forall i | 0 <= i < |ts| :: LegalLexeme(ts[i]) }

  ghost predicate Blank(gap: string) { forall i | 0 <= i < |gap| :: IsSpace(gap[i]) }

  /** Two tokens that would read as something else without a space between them. */
  ghost predicate Merge(l: Lexeme, m: Lexeme) {
    (l.Word? && m.Word?) || (l == Arrow(Truncate) && m.Arrow? && m.kind != Read)
  }

  /** gaps[i] stands before token i, the last one after them all. */
  ghost predicate Spaced(ts: seq<Lexeme>, gaps: seq<string>) {
    && |gaps| == |ts| + 1
    && (forall i | 0 <= i < |gaps| :: Blank(gaps[i]))
    && forall i | 0 < i < |ts| :: Merge(ts[i - 1], ts[i]) ==> gaps[i] != ""
  }

  function Layout(ts: seq<Lexeme>, gaps: seq<string>): string
    requires |gaps| == |ts| + 1
  {
    gaps[0] + if ts == [] then "" else Glyph(ts[0]) + Layout(ts[1..], gaps[1..])
  }

  lemma SpacedRest(ts: seq<Lexeme>, gaps: seq<string>)
    requires ts != [] && Spaced(ts, gaps) && LegalLexemes(ts)
    ensures Spaced(ts[1..], gaps[1..]) && LegalLexemes(ts[1..]) && Blank(gaps[0]) && LegalLexeme(ts[0])
    ensures |ts| > 1 && Merge(ts[0], ts[1]) ==> gaps[1] != ""
  {
    forall i | 0 < i < |ts| - 1 ensures Merge(ts[1..][i - 1], ts[1..][i]) ==> gaps[1..][i] != "" {
      assert ts[1..][i - 1] == ts[i] && ts[1..][i] == ts[i + 1];
    }
  }

  lemma {:induction false} SkipIs(s: string, p: nat, q: nat)
    requires p <= q <= |s| && (forall i | p <= i < q :: IsSpace(s[i])) && (q < |s| ==> !IsSpace(s[q]))
    ensures Skip(s, p) == q
    decreases q - p
  {
    if p < q {
      SkipIs(s, p + 1, q);
    }
  }

  /** How a layout may go on after the token l. */
  ghost predicate Continues(l: Lexeme, more: string) {
    && (l.Word? && more != "" ==> !IsWord(more[0]))
    && (l == Arrow(Truncate) && more != "" ==> more[0] != '>')
  }

  lemma LayoutContinues(l: Lexeme, ts: seq<Lexeme>, gaps: seq<string>)
    requires Spaced(ts, gaps) && LegalLexemes(ts) && (ts != [] && Merge(l, ts[0]) ==> gaps[0] != "")
    ensures Continues(l, Layout(ts, gaps))
  {
    assert Blank(gaps[0]);
    if gaps[0] != "" {
      assert Layout(ts, gaps)[0] == gaps[0][0] && IsSpace(gaps[0][0]);
    } else if ts != [] {
      assert LegalLexeme(ts[0]) && Layout(ts, gaps) == Glyph(ts[0]) + Layout(ts[1..], gaps[1..]);
      assert Layout(ts, gaps)[0] == Glyph(ts[0])[0];
    }
  }

  lemma Parts(s: string, p: nat, gap: string, glyph: string, more: string)
    requires p <= |s| && s[p..] == gap + (glyph + more)
    ensures var q, e := p + |gap|, p + |gap| + |glyph|;
            && e <= |s| && s[p..q] == gap && s[q..e] == glyph && s[e..] == more
  {
    var q, e := p + |gap|, p + |gap| + |glyph|;
    assert s[p..q] == s[p..][..|gap|] && s[q..e] == s[p..][|gap|..e - p] && s[e..] == s[p..][e - p..];
  }

  lemma WordGlyph(s: string, q: nat, w: string)
    requires Clean(s) && q + |w| <= |s| && s[q..q + |w|] == w && LegalWord(w)
    requires q + |w| < |s| ==> !IsWord(s[q + |w|])
    ensures Skip(s, q) == q && TokenAt(s, q) == Token('a', q, q + |w|, Skip(s, q + |w|))
  {
    forall i | q <= i < q + |w| ensures IsWord(s[i]) {
      assert s[i] == s[q..q + |w|][i - q];
    }
    WordEndIs(s, q, q + |w|);
  }

  lemma SymbolGlyph(s: string, q: nat, l: Lexeme)
    requires Clean(s) && q + |Glyph(l)| <= |s| && s[q..q + |Glyph(l)|] == Glyph(l) && LegalLexeme(l) && !l.Word?
    requires l == Arrow(Truncate) && q + 1 < |s| ==> s[q + 1] != '>'
    ensures var t, e := TokenAt(s, q), q + |Glyph(l)|;
            && Skip(s, q) == q && t.kind != '\0' && t.hi == e && t.next == Skip(s, e) && LexemeOf(s, t) == l
  {
    hide IsWord, WordEnd, TokenAt, Skip;
    assert s[q] == s[q..q + |Glyph(l)|][0];
    if l.Arrow? && l.kind != Read {
      if l.kind == Append {
        assert s[q + 1] == s[q..q + 2][1];
      }
      ArrowToken(s, q);
    } else {
      SymbolToken(s, q);
    }
  }

  lemma ArrowToken(s: string, p: nat)
    requires Clean(s) && p < |s| && s[p] == '>'
    ensures var two := p + 1 < |s| && s[p + 1] == '>';
            && Skip(s, p) == p
            && TokenAt(s, p) == if two then Token('+', p, p + 2, Skip(s, p + 2))
              else Token('>', p, p + 1, Skip(s, p + 1))
  {
  }

  lemma GlyphAt(s: string, q: nat, l: Lexeme)
    requires Clean(s) && q + |Glyph(l)| <= |s| && s[q..q + |Glyph(l)|] == Glyph(l) && LegalLexeme(l)
    requires Continues(l, s[q + |Glyph(l)|..])
    ensures var t, e := TokenAt(s, q), q + |Glyph(l)|;
            && Skip(s, q) == q && t.kind != '\0' && t.hi == e && t.next == Skip(s, e) && LexemeOf(s, t) == l
  {
    hide TokenAt, Skip, IsWord, LegalWord;
    var e := q + |Glyph(l)|;
    assert e < |s| ==> s[e] == s[e..][0];
    if l.Word? {
      WordGlyph(s, q, l.text);
    } else {
      SymbolGlyph(s, q, l);
    }
  }

  /** The token after some spaces. */
  lemma SkipsTo(s: string, p: nat, gap: string)
    requires Clean(s) && p + |gap| <= |s| && s[p..p + |gap|] == gap && Blank(gap)
    requires Skip(s, p + |gap|) == p + |gap|
    ensures TokenAt(s, p) == TokenAt(s, p + |gap|)
  {
    hide IsWord, IsSymbol, Skip, WordEnd;
    forall i | p <= i < p + |gap| ensures IsSpace(s[i]) {
      assert s[i] == s[p..p + |gap|][i - p];
    }
    SkipIs(s, p, p + |gap|);
  }

  /** The first token of a layout. */
  lemma GlyphToken(s: string, p: nat, gap: string, l: Lexeme, more: string)
    requires Clean(s) && p <= |s| && s[p..] == gap + (Glyph(l) + more)
    requires Blank(gap) && LegalLexeme(l) && Continues(l, more)
    ensures var t := TokenAt(s, p);
            && t.kind != '\0' && LexemeOf(s, t) == l && t.hi == p + |gap| + |Glyph(l)| && t.next == Skip(s, t.hi)
            && s[t.hi..] == more
  {
    hide TokenAt, Skip, Glyph, LexemeOf, LegalLexeme, Continues, Blank, Clean;
    Parts(s, p, gap, Glyph(l), more);
    GlyphAt(s, p + |gap|, l);
    SkipsTo(s, p, gap);
  }

  /** A line reads as the tokens written on it, however they are spaced. */
  lemma {:induction false} Lexed(s: string, p: nat, ts: seq<Lexeme>, gaps: seq<string>)
    requires Clean(s) && p <= |s| && Spaced(ts, gaps) && LegalLexemes(ts) && s[p..] == Layout(ts, gaps)
    ensures Lexemes(s, p) == ts
    decreases |ts|
  {
    if ts == [] {
      forall i | p <= i < |s| ensures IsSpace(s[i]) {
        assert Blank(gaps[0]) && s[i] == s[p..][i - p];
      }
      SkipIs(s, p, |s|);
    } else {
      SpacedRest(ts, gaps);
      var more := Layout(ts[1..], gaps[1..]);
      LayoutContinues(ts[0], ts[1..], gaps[1..]);
      GlyphToken(s, p, gaps[0], ts[0], more);
      var t := TokenAt(s, p);
      Lexed(s, t.hi, ts[1..], gaps[1..]);
      SkipTwice(s, t.hi);
    }
  }

  lemma {:induction false} LayoutClean(ts: seq<Lexeme>, gaps: seq<string>)
    requires Spaced(ts, gaps) && LegalLexemes(ts)
    ensures Clean(Layout(ts, gaps))
    decreases |ts|
  {
    assert Blank(gaps[0]);
    if ts != [] {
      SpacedRest(ts, gaps);
      LayoutClean(ts[1..], gaps[1..]);
    }
  }

  /** Every line of the grammar, written out with any spacing, is parsed to its meaning. */
  lemma ParseWritten(t: Line, gaps: seq<string>)
    requires LineFits(t) && LegalLexemes(LineTokens(t)) && Spaced(LineTokens(t), gaps)
    ensures var s := Layout(LineTokens(t), gaps);
            Clean(s) && CmdAt(s).Ok? && Spelled(s, CmdAt(s).value) == LineMeaning(t)
  {
    hide CmdAt, LineTokens, LineMeaning, LineFits, Layout;
    var s := Layout(LineTokens(t), gaps);
    LayoutClean(LineTokens(t), gaps);
    assert s[0..] == s;
    Lexed(s, 0, LineTokens(t), gaps);
    Accepts(s, t);
  }

  // ---------------------------------------------------------------------
  // Every command can be written

  function ArgItems(args: seq<string>): (r: seq<Item>)
    ensures |r| == |args|
  {
    seq(|args|, i requires 0 <= i < |args| => Arg(args[i]))
  }

  /** The line with every operand in parentheses. */
  function Bracketed(c: Cmd<string>): Line {
    match c
    case Exec(args) => Alone(Last(Simple(ArgItems(args))), 0)
    case Redir(c', file, kind) => Alone(Last(Block(Bracketed(c'), [Redirection(file, kind)])), 0)
    case Pipe(l, r) => Alone(Piped(Block(Bracketed(l), []), Last(Block(Bracketed(r), []))), 0)
    case List(l, r) => Then(Last(Block(Bracketed(l), [])), 0, Alone(Last(Block(Bracketed(r), [])), 0))
    case Back(c') => Alone(Last(Block(Bracketed(c'), [])), 1)
  }

  lemma {:induction false} ArgsBracketed(args: seq<string>)
    ensures Args(ArgItems(args)) == args && Redirections(ArgItems(args)) == []
    ensures (forall i | 0 <= i < |args| :: LegalWord(args[i])) ==> LegalLexemes(ItemTokens(ArgItems(args)))
    decreases |args|
  {
    hide LegalWord;
    if args != [] {
      ArgsBracketed(args[1..]);
      assert ArgItems(args)[1..] == ArgItems(args[1..]);
      assert args == [args[0]] + args[1..];
      LegalWords(args);
    }
  }

  lemma LegalWords(args: seq<string>)
    requires args != []
    ensures (forall i | 0 <= i < |args| :: LegalWord(args[i])) ==>
              LegalLexeme(Word(args[0])) && forall i | 0 <= i < |args[1..]| :: LegalWord(args[1..][i])
  {
  }

  /** A simple command as a pipeline. */
  lemma OneStage(items: seq<Item>)
    ensures PipeTokens(Last(Simple(items))) == ItemTokens(items)
    ensures PipeMeaning(Last(Simple(items))) == SimpleMeaning(items)
    ensures PipeFits(Last(Simple(items))) <==> |Args(items)| < MAXARGS
  {
    assert StageFits(Simple(items)) <==> |Args(items)| < MAXARGS;
    assert StageTokens(Simple(items)) == ItemTokens(items);
  }

  /** The line t can be written and stands for c. */
  ghost predicate Writes(t: Line, c: Cmd<string>) {
    LineMeaning(t) == c && LineFits(t) && LegalLexemes(LineTokens(t))
  }

  ghost predicate StageWrites(t: Stage, c: Cmd<string>) {
    StageMeaning(t) == c && StageFits(t) && LegalLexemes(StageTokens(t))
  }

  lemma BlockWrites(body: Line, rs: seq<Redirection<string>>, c: Cmd<string>)
    requires Writes(body, c) && |rs| <= 1 && (|rs| == 1 ==> LegalWord(rs[0].file))
    ensures StageWrites(Block(body, rs), Wrap(c, rs))
  {
    hide LineTokens, LegalWord;
    assert rs != [] ==> RedirTokens(rs[1..]) == [];
  }

  lemma LineWrites(t: Stage, c: Cmd<string>, backs: nat)
    requires StageWrites(t, c) && backs <= 1
    ensures Writes(Alone(Last(t), backs), if backs == 0 then c else Back(c))
    ensures PipeTokens(Last(t)) == StageTokens(t) && PipeMeaning(Last(t)) == c && PipeFits(Last(t))
  {
    hide StageTokens, StageFits, StageMeaning;
    assert Ampersands(0) == [] && Ampersands(1) == [Mark('&')] + Ampersands(0);
    assert Backs(c, 1) == Backs(Back(c), 0) == Back(c);
    assert PipeTokens(Last(t)) == StageTokens(t) && PipeMeaning(Last(t)) == c && PipeFits(Last(t));
  }

  lemma PairWrites(t: Stage, c: Cmd<string>, u: Stage, d: Cmd<string>)
    requires StageWrites(t, c) && StageWrites(u, d)
    ensures Writes(Alone(Piped(t, Last(u)), 0), Pipe(c, d)) && Writes(Then(Last(t), 0, Alone(Last(u), 0)), List(c, d))
  {
    hide StageTokens, StageFits, StageMeaning;
    LineWrites(t, c, 0);
    LineWrites(u, d, 0);
    var pipe := Piped(t, Last(u));
    assert PipeTokens(pipe) == StageTokens(t) + ([Mark('|')] + StageTokens(u)) && PipeFits(pipe);
    assert PipeMeaning(pipe) == Pipe(c, d) && Ampersands(0) == [];
    assert LineTokens(Alone(Last(u), 0)) == StageTokens(u) + [];
  }

  lemma {:induction false} BracketedMeans(c: Cmd<string>)
    requires Legal(c)
    ensures Writes(Bracketed(c), c)
    decreases c, 0
  {
    hide LegalWord, Writes, StageWrites, Wrap;
    match c
    case Exec(args) => ExecWrites(args);
    case Redir(c', file, kind) =>
      BracketedMeans(c');
      RedirWrites(Bracketed(c'), c', file, kind);
    case Pipe(l, r) =>
      PlainBlock(l);
      PlainBlock(r);
      PairWrites(Block(Bracketed(l), []), l, Block(Bracketed(r), []), r);
    case List(l, r) =>
      PlainBlock(l);
      PlainBlock(r);
      PairWrites(Block(Bracketed(l), []), l, Block(Bracketed(r), []), r);
    case Back(c') =>
      PlainBlock(c');
      LineWrites(Block(Bracketed(c'), []), c', 1);
  }

  lemma PlainBlock(c: Cmd<string>)
    requires Legal(c)
    ensures StageWrites(Block(Bracketed(c), []), c)
    decreases c, 1
  {
    hide Legal, Writes, StageWrites, Bracketed;
    BracketedMeans(c);
    BlockWrites(Bracketed(c), [], c);
  }

  lemma ExecWrites(args: seq<string>)
    requires Legal(Exec(args))
    ensures Writes(Alone(Last(Simple(ArgItems(args))), 0), Exec(args))
  {
    hide LegalWord, ArgItems;
    ArgsBracketed(args);
    LineWrites(Simple(ArgItems(args)), Exec(args), 0);
  }

  lemma RedirWrites(body: Line, c: Cmd<string>, file: string, kind: Kind)
    requires Writes(body, c) && LegalWord(file)
    ensures Writes(Alone(Last(Block(body, [Redirection(file, kind)])), 0), Redir(c, file, kind))
  {
    hide LegalWord, Writes, StageWrites;
    var rs := [Redirection(file, kind)];
    assert rs[..0] == [] && Wrap(c, rs) == Redir(c, file, kind);
    BlockWrites(body, rs, c);
    LineWrites(Block(body, rs), Redir(c, file, kind), 0);
  }

  /** Every command tree with legal words, at most nine to a command, has a line that parses to it. */
  lemma ParsePrinted(c: Cmd<string>, gaps: seq<string>)
    requires Legal(c) && Spaced(LineTokens(Bracketed(c)), gaps)
    ensures var s := Layout(LineTokens(Bracketed(c)), gaps);
            Clean(s) && CmdAt(s).Ok? && Spelled(s, CmdAt(s).value) == c
  {
    hide Bracketed, LineTokens, LineMeaning, LineFits, Layout, CmdAt;
    BracketedMeans(c);
    ParseWritten(Bracketed(c), gaps);
  }

  // ---------------------------------------------------------------------
  // Lines without parentheses

  /** Only "&", ";", ")" or the end may follow an ampersand. */
  ghost predicate AmpersandsLast(ts: seq<Lexeme>) {
    forall i | 0 <= i < |ts| - 1 && ts[i] == Mark('&') :: ts[i + 1].Mark? && ts[i + 1].symbol in "&;)"
  }

  ghost predicate NoAmpersandEnd(ts: seq<Lexeme>) { ts == [] || ts[|ts| - 1] != Mark('&') }

  lemma Join(a: seq<Lexeme>, b: seq<Lexeme>)
    requires AmpersandsLast(a) && AmpersandsLast(b) && (NoAmpersandEnd(a) || b == [] || Starts(b, "&;)"))
    ensures AmpersandsLast(a + b) && (NoAmpersandEnd(b) && (b != [] || NoAmpersandEnd(a)) ==> NoAmpersandEnd(a + b))
  {
    forall i | 0 <= i < |a + b| - 1 && (a + b)[i] == Mark('&')
      ensures (a + b)[i + 1].Mark? && (a + b)[i + 1].symbol in "&;)"
    {
      if i >= |a| {
        assert (a + b)[i] == b[i - |a|] && (a + b)[i + 1] == b[i - |a| + 1];
      }
    }
  }

  lemma {:induction false} ItemsLast(items: seq<Item>)
    ensures forall i | 0 <= i < |ItemTokens(items)| :: !ItemTokens(items)[i].Mark?
    decreases |items|
  {
    if items != [] {
      ItemsLast(items[1..]);
    }
  }

  lemma {:induction false} RedirsLast(rs: seq<Redirection<string>>)
    ensures forall i | 0 <= i < |RedirTokens(rs)| :: !RedirTokens(rs)[i].Mark?
    decreases |rs|
  {
    if rs != [] {
      RedirsLast(rs[1..]);
    }
  }

  lemma {:induction false} AmpersandsThemselves(n: nat)
    ensures forall i | 0 <= i < |Ampersands(n)| :: Ampersands(n)[i] == Mark('&')
  {
    if n > 0 {
      AmpersandsThemselves(n - 1);
    }
  }

  lemma {:induction false} StageLast(t: Stage)
    ensures AmpersandsLast(StageTokens(t)) && NoAmpersandEnd(StageTokens(t))
    decreases t
  {
    hide ItemTokens, LineTokens, RedirTokens;
    match t
    case Simple(items) => ItemsLast(items);
    case Block(body, rs) =>
      LineLast(body);
      RedirsLast(rs);
      Join([Mark(')')], RedirTokens(rs));
      Join(LineTokens(body), [Mark(')')] + RedirTokens(rs));
      Join([Mark('(')], LineTokens(body) + ([Mark(')')] + RedirTokens(rs)));
  }

  lemma {:induction false} PipeLast(t: Pipeline)
    ensures AmpersandsLast(PipeTokens(t)) && NoAmpersandEnd(PipeTokens(t))
    decreases t
  {
    hide StageTokens;
    StageLast(t.stage);
    if t.Piped? {
      PipeLast(t.rest);
      Join([Mark('|')], PipeTokens(t.rest));
      Join(StageTokens(t.stage), [Mark('|')] + PipeTokens(t.rest));
    }
  }

  lemma {:induction false} LineLast(t: Line)
    ensures AmpersandsLast(LineTokens(t))
    decreases t
  {
    hide PipeTokens, Ampersands;
    PipeLast(t.pipe);
    AmpersandsThemselves(t.backs);
    if t.Alone? {
      Join(PipeTokens(t.pipe), Ampersands(t.backs));
    } else {
      LineLast(t.rest);
      var more := [Mark(';')] + LineTokens(t.rest);
      Join([Mark(';')], LineTokens(t.rest));
      Join(Ampersands(t.backs), more);
      Join(PipeTokens(t.pipe), Ampersands(t.backs) + more);
    }
  }

  /** "a & b" is no command line: after "&" only another "&", ";" or ")" is accepted. */
  lemma NothingAfterAmpersand(s: string, i: nat)
    requires Clean(s) && i + 1 < |Lexemes(s, 0)| && Lexemes(s, 0)[i] == Mark('&')
    requires !(Lexemes(s, 0)[i + 1].Mark? && Lexemes(s, 0)[i + 1].symbol in "&;)")
    ensures CmdAt(s).Panic?
  {
    hide CmdAt, Lexemes, LineTokens, LineFits;
    AcceptsExactly(s);
    if CmdAt(s).Ok? {
      var t :| LineFits(t) && LineTokens(t) == Lexemes(s, 0);
      LineLast(t);
      assert false;
    }
  }

  /** The lines of three simple commands, each with its words and redirections in any order. */
  lemma PlainSyntax(s: string, a: seq<Item>, b: seq<Item>, c: seq<Item>)
    requires Clean(s) && |Args(a)| < MAXARGS && |Args(b)| < MAXARGS && |Args(c)| < MAXARGS
    ensures var (x, y, z) := (ItemTokens(a), ItemTokens(b), ItemTokens(c));
            var (l, m, n) := (SimpleMeaning(a), SimpleMeaning(b), SimpleMeaning(c));
            && (Lexemes(s, 0) == x ==> Parses(s, l))
            && (Lexemes(s, 0) == x + [Mark('|')] + y + [Mark('|')] + z ==> Parses(s, Pipe(l, Pipe(m, n))))
            && (Lexemes(s, 0) == x + [Mark(';')] + y + [Mark(';')] + z ==> Parses(s, List(l, List(m, n))))
            && (Lexemes(s, 0) == x + [Mark('&')] ==> Parses(s, Back(l)))
            && (Lexemes(s, 0) == x + [Mark('&')] + [Mark(';')] + y ==> Parses(s, List(Back(l), m)))
            && (Lexemes(s, 0) == x + [Mark('&')] + y && y != [] ==> CmdAt(s).Panic?)
  {
    hide CmdAt, Lexemes, ItemTokens, Args, SimpleMeaning, Parses;
    PlainPipes(s, a, b, c);
    PlainLists(s, a, b, c);
    PlainBacks(s, a, b);
    if Lexemes(s, 0) == ItemTokens(a) + [Mark('&')] + ItemTokens(b) && ItemTokens(b) != [] {
      ItemsLast(b);
      NothingAfterAmpersand(s, |ItemTokens(a)|);
    }
  }

  lemma PlainPipes(s: string, a: seq<Item>, b: seq<Item>, c: seq<Item>)
    requires Clean(s) && |Args(a)| < MAXARGS && |Args(b)| < MAXARGS && |Args(c)| < MAXARGS
    ensures var (x, y, z) := (ItemTokens(a), ItemTokens(b), ItemTokens(c));
            Lexemes(s, 0) == x + [Mark('|')] + y + [Mark('|')] + z ==>
              Parses(s, Pipe(SimpleMeaning(a), Pipe(SimpleMeaning(b), SimpleMeaning(c))))
  {
    hide CmdAt, Lexemes, ItemTokens, Args, Redirections, Wrap, Parses;
    OneStage(c);
    var inner := Piped(Simple(b), Last(Simple(c)));
    var pipe := Piped(Simple(a), inner);
    assert StageFits(Simple(a)) && StageFits(Simple(b)) && PipeFits(inner);
    assert PipeTokens(inner) == ItemTokens(b) + ([Mark('|')] + ItemTokens(c));
    assert PipeMeaning(inner) == Pipe(SimpleMeaning(b), SimpleMeaning(c));
    var (x, y, z) := (ItemTokens(a), ItemTokens(b), ItemTokens(c));
    assert PipeTokens(pipe) == x + ([Mark('|')] + PipeTokens(inner)) && Ampersands(0) == [];
    assert LineTokens(Alone(pipe, 0)) == x + [Mark('|')] + y + [Mark('|')] + z;
    assert PipeMeaning(pipe) == Pipe(SimpleMeaning(a), PipeMeaning(inner));
    ParsesTree(s, Alone(pipe, 0));
  }

  lemma PlainLists(s: string, a: seq<Item>, b: seq<Item>, c: seq<Item>)
    requires Clean(s) && |Args(a)| < MAXARGS && |Args(b)| < MAXARGS && |Args(c)| < MAXARGS
    ensures var (x, y, z) := (ItemTokens(a), ItemTokens(b), ItemTokens(c));
            Lexemes(s, 0) == x + [Mark(';')] + y + [Mark(';')] + z ==>
              Parses(s, List(SimpleMeaning(a), List(SimpleMeaning(b), SimpleMeaning(c))))
  {
    hide CmdAt, Lexemes, ItemTokens, Args, Redirections, Wrap, Parses, PipeTokens, PipeMeaning, PipeFits;
    OneStage(a);
    OneStage(b);
    OneStage(c);
    var last := Alone(Last(Simple(c)), 0);
    var inner := Then(Last(Simple(b)), 0, last);
    var line := Then(Last(Simple(a)), 0, inner);
    var (x, y, z) := (ItemTokens(a), ItemTokens(b), ItemTokens(c));
    assert LineFits(last) && LineTokens(last) == z && LineMeaning(last) == SimpleMeaning(c);
    assert LineFits(inner) && LineTokens(inner) == y + ([Mark(';')] + z);
    assert LineTokens(line) == x + [Mark(';')] + y + [Mark(';')] + z;
    ParsesTree(s, line);
  }

  lemma PlainBacks(s: string, a: seq<Item>, b: seq<Item>)
    requires Clean(s) && |Args(a)| < MAXARGS && |Args(b)| < MAXARGS
    ensures var (x, y) := (ItemTokens(a), ItemTokens(b));
            && (Lexemes(s, 0) == x ==> Parses(s, SimpleMeaning(a)))
            && (Lexemes(s, 0) == x + [Mark('&')] ==> Parses(s, Back(SimpleMeaning(a))))
            && (Lexemes(s, 0) == x + [Mark('&')] + [Mark(';')] + y ==>
                  Parses(s, List(Back(SimpleMeaning(a)), SimpleMeaning(b))))
  {
    hide CmdAt, Lexemes, ItemTokens, Args, Redirections, Wrap, Parses, PipeTokens, PipeMeaning, PipeFits;
    OneStage(a);
    OneStage(b);
    assert Ampersands(1) == [Mark('&')] + Ampersands(0) == [Mark('&')];
    var (f, g) := (Last(Simple(a)), Last(Simple(b)));
    var (x, y) := (ItemTokens(a), ItemTokens(b));
    assert LineTokens(Alone(f, 0)) == x && LineTokens(Alone(f, 1)) == x + [Mark('&')];
    ParsesTree(s, Alone(f, 0));
    assert Backs(SimpleMeaning(a), 1) == Back(SimpleMeaning(a));
    ParsesTree(s, Alone(f, 1));
    assert LineTokens(Alone(g, 0)) == y && LineMeaning(Alone(g, 0)) == SimpleMeaning(b);
    assert LineTokens(Then(f, 1, Alone(g, 0))) == x + [Mark('&')] + [Mark(';')] + y;
    ParsesTree(s, Then(f, 1, Alone(g, 0)));
  }

  ghost predicate Parses(s: string, c: Cmd<string>)
    requires Clean(s)
  {
    CmdAt(s).Ok? && Spelled(s, CmdAt(s).value) == c
  }

  lemma ParsesTree(s: string, t: Line)
    requires Clean(s) && LineFits(t)
    ensures Lexemes(s, 0) == LineTokens(t) ==> Parses(s, LineMeaning(t))
  {
    hide CmdAt, Lexemes, LineTokens, LineMeaning;
    if Lexemes(s, 0) == LineTokens(t) {
      Accepts(s, t);
    }
  }
}
