/** Printing commands with as few parentheses as the grammar allows, and the proof that parsing a
    printed command gives the command back. */
module ShPrint {
  import opened ShSpec

  // ---------------------------------------------------------------- text of a parsed command

  function SpanText(b: string, w: Span): string {
    if w.q <= w.eq <= |b| then b[w.q..w.eq] else ""
  }

  function Texts(b: string, ws: seq<Span>): (r: seq<string>)
    ensures |r| == |ws| && forall k | 0 <= k < |ws| :: r[k] == SpanText(b, ws[k])
  {
    seq(|ws|, k requires 0 <= k < |ws| => SpanText(b, ws[k]))
  }

  function Text(b: string, c: Cmd<Span>): Cmd<string> {
    match c
    case Exec(args) => Exec(Texts(b, args))
    case Redir(x, f, mode, fd) => Redir(Text(b, x), SpanText(b, f), mode, fd)
    case Pipe(l, r) => Pipe(Text(b, l), Text(b, r))
    case List(l, r) => List(Text(b, l), Text(b, r))
    case Back(x) => Back(Text(b, x))
  }

  function RedirTexts(b: string, rs: seq<Redirection<Span>>): (r: seq<Redirection<string>>)
    ensures |r| == |rs|
    ensures forall k | 0 <= k < |rs| :: r[k] == Redirection(SpanText(b, rs[k].file), rs[k].mode, rs[k].fd)
  {
    seq(|rs|, k requires 0 <= k < |rs| => Redirection(SpanText(b, rs[k].file), rs[k].mode, rs[k].fd))
  }

  lemma {:induction false} TextOfWrap(b: string, rs: seq<Redirection<Span>>, c: Cmd<Span>)
    ensures Text(b, Wrap(rs, c)) == Wrap(RedirTexts(b, rs), Text(b, c))
  {
    if rs != [] {
      TextOfWrap(b, rs[..|rs| - 1], c);
      assert RedirTexts(b, rs)[..|rs| - 1] == RedirTexts(b, rs[..|rs| - 1]);
    }
  }

  // ---------------------------------------------------------------- printing

  predicate GoodWord(w: string) {
    w != "" && forall k | 0 <= k < |w| :: WordChar(w[k])
  }

  predicate GoodMode(mode: nat, fd: nat) {
    (mode == O_RDONLY && fd == 0) || (mode == O_WRONLY + O_CREATE && fd == 1)
  }

  predicate GoodRedir(r: Redirection<string>) {
    GoodWord(r.file) && GoodMode(r.mode, r.fd)
  }

  // The commands the grammar can express.
  predicate Printable(c: Cmd<string>) {
    match c
    case Exec(args) => |args| < MAXARGS && forall k | 0 <= k < |args| :: GoodWord(args[k])
    case Redir(x, f, mode, fd) => Printable(x) && GoodRedir(Redirection(f, mode, fd))
    case Pipe(l, r) => Printable(l) && Printable(r)
    case List(l, r) => Printable(l) && Printable(r)
    case Back(x) => Printable(x)
  }

  function PrintArgs(args: seq<string>): string {
    if args == [] then "" else args[0] + " " + PrintArgs(args[1..])
  }

  function PrintRedir(r: Redirection<string>): string {
    (if r.mode == O_RDONLY then "<" else ">") + (r.file + " ")
  }

  function PrintRedirs(rs: seq<Redirection<string>>): string {
    if rs == [] then "" else PrintRedir(rs[0]) + PrintRedirs(rs[1..])
  }

  // The grammar levels, loosest first, and the one that prints a command without parentheses.
  datatype Level = Line | Amp | Piped | Simple {
    function Rank(): nat {
      match this case Line => 0 case Amp => 1 case Piped => 2 case Simple => 3
    }
  }

  function Natural<W>(c: Cmd<W>): nat {
    match c case List(_, _) => 0 case Back(_) => 1 case Pipe(_, _) => 2 case _ => 3
  }

  function Distance<W>(l: Level, c: Cmd<W>): nat {
    (Natural(c) + 4 - l.Rank()) % 4
  }

  function Print(l: Level, c: Cmd<string>): string
    decreases c, Distance(l, c)
  {
    match l
    case Line =>
      if c.List? then Print(Amp, c.left) + (";" + Print(Line, c.right)) else Print(Amp, c)
    case Amp =>
      if c.Back? then Print(Amp, c.cmd) + "&" else Print(Piped, c)
    case Piped =>
      if c.Pipe? then Print(Simple, c.left) + ("|" + Print(Piped, c.right)) else Print(Simple, c)
    case Simple =>
      if c.Exec? then PrintArgs(c.args)
      else if c.Redir? then Print(Simple, c.cmd) + PrintRedir(Redirection(c.file, c.mode, c.fd))
      else "(" + (Print(Line, c) + ")")
  }

  function RedirList<W>(c: Cmd<W>): seq<Redirection<W>> {
    if c.Redir? then RedirList(c.cmd) + [Redirection(c.file, c.mode, c.fd)] else []
  }

  function Base<W>(c: Cmd<W>): Cmd<W> {
    if c.Redir? then Base(c.cmd) else c
  }

  lemma {:induction false} WrapBase<W>(c: Cmd<W>)
    ensures Wrap(RedirList(c), Base(c)) == c && !Base(c).Redir?
  {
    if c.Redir? {
      WrapBase(c.cmd);
      assert RedirList(c)[..|RedirList(c)| - 1] == RedirList(c.cmd);
    }
  }

  lemma {:induction false} PrintRedirsSnoc(rs: seq<Redirection<string>>, r: Redirection<string>)
    ensures PrintRedirs(rs + [r]) == PrintRedirs(rs) + PrintRedir(r)
  {
    if rs == [] {
      assert rs + [r] == [r] && [r][1..] == [];
      assert PrintRedirs([r]) == PrintRedir(r) + "" == PrintRedir(r);
    } else {
      PrintRedirsSnoc(rs[1..], r);
      assert (rs + [r])[1..] == rs[1..] + [r];
      assert (rs + [r])[0] == rs[0];
    }
  }

  lemma {:induction false} PrintBase(c: Cmd<string>)
    requires Printable(c)
    ensures Print(Simple, c) == Print(Simple, Base(c)) + PrintRedirs(RedirList(c))
    ensures Printable(Base(c)) && forall k | 0 <= k < |RedirList(c)| :: GoodRedir(RedirList(c)[k])
  {
    if c.Redir? {
      PrintBase(c.cmd);
      PrintRedirsSnoc(RedirList(c.cmd), Redirection(c.file, c.mode, c.fd));
    } else {
      assert Print(Simple, c) + "" == Print(Simple, c);
    }
  }

  // ---------------------------------------------------------------- reading tokens back

  predicate NoNul(b: string) {
    forall k | 0 <= k < |b| :: b[k] != NUL
  }

  // s stands in b at i.
  predicate Printed(b: string, i: nat, s: string) {
    i + |s| <= |b| && b[i..i + |s|] == s
  }

  lemma PrintedParts(b: string, i: nat, s: string, t: string)
    requires Printed(b, i, s + t)
    ensures Printed(b, i, s) && Printed(b, i + |s|, t)
  {
    assert b[i..i + |s|] == b[i..i + |s + t|][..|s|] == s;
    assert b[i + |s|..i + |s| + |t|] == b[i..i + |s + t|][|s|..] == t;
  }

  lemma PrintedAt(b: string, i: nat, s: string, k: nat)
    requires Printed(b, i, s) && k < |s|
    ensures b[i + k] == s[k]
  {
    assert b[i..i + |s|][k] == b[i + k];
  }

  lemma WordToken(b: string, i: nat, w: string)
    requires Printed(b, i, w + " ") && GoodWord(w)
    ensures GetToken(b, i) == Token('a', Span(i, i + |w|), Skip(b, i + |w| + 1)) && Skip(b, i) == i
    ensures WordChar(b[i]) && b[i..i + |w|] == w
  {
    PrintedParts(b, i, w, " ");
    PrintedAt(b, i, w, 0);
    PrintedAt(b, i + |w|, " ", 0);
    forall k | i <= k < i + |w|
      ensures WordChar(b[k])
    {
      PrintedAt(b, i, w, k - i);
    }
    var j := WordEnd(b, i);
    assert j == i + |w|;
    assert b[j] == ' ';
  }

  lemma SkipTwice(b: string, i: nat)
    requires i <= |b|
    ensures Skip(b, Skip(b, i)) == Skip(b, i)
  {}

  predicate NextIn(b: string, j: nat, toks: set<char>)
    requires j <= |b|
  {
    At(b, Skip(b, j)) == NUL || At(b, Skip(b, j)) in toks
  }

  // ---------------------------------------------------------------- reading redirections and words

  // What redirection rs[k] of the parse should say.
  predicate ReadsRedirs(b: string, r: Parsed<seq<Redirection<Span>>>, rs: seq<Redirection<string>>, j: nat) {
    r.Ok? && r.next == j && RedirTexts(b, r.value) == rs
  }

  lemma RedirToken(b: string, i: nat, r: Redirection<string>)
    requires Printed(b, i, PrintRedir(r)) && GoodRedir(r) && NoNul(b)
    ensures Skip(b, i) == i && Peek(b, i, {'<', '>'})
    ensures var t := GetToken(b, i); var f := GetToken(b, t.next);
      && f.tok == 'a' && SpanText(b, f.span) == r.file && f.next == Skip(b, i + |PrintRedir(r)|)
      && (t.tok == '<' <==> r.mode == O_RDONLY)
  {
    var c := if r.mode == O_RDONLY then "<" else ">";
    PrintedParts(b, i, c, r.file + " ");
    PrintedAt(b, i, c, 0);
    WordToken(b, i + 1, r.file);
  }

  lemma RedirsSkip(b: string, k: nat)
    requires k <= |b|
    ensures Redirs(b, Skip(b, k)) == Redirs(b, k)
  {
    SkipTwice(b, k);
  }

  lemma RedirTextsCons(b: string, x: Redirection<Span>, rs: seq<Redirection<Span>>)
    ensures RedirTexts(b, [x] + rs) == [Redirection(SpanText(b, x.file), x.mode, x.fd)] + RedirTexts(b, rs)
  {}

  lemma RedirsCons(b: string, i: nat)
    requires i <= |b| && Skip(b, i) == i && Peek(b, i, {'<', '>'})
    requires GetToken(b, GetToken(b, i).next).tok == 'a'
    ensures var t := GetToken(b, i); var f := GetToken(b, t.next); var q := Redirs(b, f.next);
      var x := if t.tok == '<' then Redirection(f.span, O_RDONLY, 0) else Redirection(f.span, O_WRONLY + O_CREATE, 1);
      q.Ok? ==> Redirs(b, i) == Ok([x] + q.value, q.next)
  {
    hide GetToken; hide Skip; hide Peek;
  }

  lemma RedirsStep(b: string, i: nat, r: Redirection<string>)
    requires Printed(b, i, PrintRedir(r)) && GoodRedir(r) && NoNul(b)
    ensures var k := i + |PrintRedir(r)|; var p, q := Redirs(b, i), Redirs(b, k);
      q.Ok? ==> p.Ok? && p.next == q.next && RedirTexts(b, p.value) == [r] + RedirTexts(b, q.value)
  {
    hide PrintRedir; hide GetToken; hide Peek; hide Skip; hide At; hide Redirs; hide RedirTexts; hide SpanText;
    var k := i + |PrintRedir(r)|;
    RedirToken(b, i, r);
    RedirsSkip(b, k);
    RedirsCons(b, i);
    var t := GetToken(b, i);
    var f := GetToken(b, t.next);
    var x := if t.tok == '<' then Redirection(f.span, O_RDONLY, 0) else Redirection(f.span, O_WRONLY + O_CREATE, 1);
    if Redirs(b, k).Ok? {
      RedirTextsCons(b, x, Redirs(b, k).value);
    }
  }

  lemma RedirsSplit(b: string, i: nat, rs: seq<Redirection<string>>)
    requires rs != [] && Printed(b, i, PrintRedirs(rs))
    ensures Printed(b, i, PrintRedir(rs[0])) && Printed(b, i + |PrintRedir(rs[0])|, PrintRedirs(rs[1..]))
    ensures |PrintRedirs(rs)| == |PrintRedir(rs[0])| + |PrintRedirs(rs[1..])|
  {
    hide PrintRedir;
    PrintedParts(b, i, PrintRedir(rs[0]), PrintRedirs(rs[1..]));
  }

  lemma NoRedirsParse(b: string, i: nat)
    requires i <= |b| && !Peek(b, i, {'<', '>'})
    ensures ReadsRedirs(b, Redirs(b, i), [], Skip(b, i))
  {
    assert RedirTexts(b, []) == [];
  }

  lemma {:induction false} RedirsParse(b: string, i: nat, rs: seq<Redirection<string>>)
    requires Printed(b, i, PrintRedirs(rs)) && i + |PrintRedirs(rs)| <= |b| && NoNul(b)
    requires forall k | 0 <= k < |rs| :: GoodRedir(rs[k])
    requires !Peek(b, i + |PrintRedirs(rs)|, {'<', '>'})
    ensures ReadsRedirs(b, Redirs(b, i), rs, Skip(b, i + |PrintRedirs(rs)|))
    decreases |rs|
  {
    hide Peek; hide Skip; hide PrintRedir; hide Redirs; hide Printed; hide GoodRedir; hide RedirTexts; hide NoNul;
    if rs == [] {
      NoRedirsParse(b, i);
    } else {
      hide PrintRedirs;
      RedirsSplit(b, i, rs);
      RedirsStep(b, i, rs[0]);
      RedirsParse(b, i + |PrintRedir(rs[0])|, rs[1..]);
    }
  }

  predicate Reads(b: string, r: Parsed<Cmd<Span>>, c: Cmd<string>, j: nat) {
    r.Ok? && r.next == j && Text(b, r.value) == c
  }

  lemma NextInPeek(b: string, j: nat, toks: set<char>, other: set<char>)
    requires j <= |b| && NextIn(b, j, toks) && forall c | c in other :: c !in toks
    ensures !Peek(b, j, other)
  {}

  // Where no argument follows, the loop ends.
  lemma ArgsEnd(b: string, j: nat, args: seq<Span>, rs: seq<Redirection<Span>>)
    requires j <= |b| && Skip(b, j) == j && NextIn(b, j, {'|', ')', '&', ';'}) && NoNul(b)
    ensures Reads(b, Args(b, j, args, rs), Wrap(RedirTexts(b, rs), Exec(Texts(b, args))), j)
  {
    TextOfWrap(b, rs, Exec(args));
  }

  // One argument and the redirections after it.
  lemma ArgsWord(b: string, i: nat, w: string, args: seq<Span>)
    requires Printed(b, i, w + " ") && GoodWord(w) && |args| + 1 < MAXARGS && NoNul(b)
    ensures Skip(b, i) == i && WordChar(At(b, i))
    ensures var k := i + |w| + 1; var args' := args + [Span(i, i + |w|)];
      Redirs(b, k).Ok? ==> Args(b, i, args, []) == Args(b, Redirs(b, k).next, args', Redirs(b, k).value)
  {
    hide GetToken; hide Skip; hide Redirs; hide Printed; hide At; hide GoodWord; hide Args;
    WordToken(b, i, w);
    WordNext(b, i);
    var k := i + |w| + 1;
    RedirsSkip(b, k);
    ArgsCons(b, i, args);
  }

  lemma WordNext(b: string, i: nat)
    requires i < |b| && WordChar(b[i]) && Skip(b, i) == i
    ensures At(b, i) == b[i] && !Peek(b, i, {'|', ')', '&', ';'})
  {}

  lemma ArgsCons(b: string, i: nat, args: seq<Span>)
    requires i <= |b| && Skip(b, i) == i && !Peek(b, i, {'|', ')', '&', ';'})
    requires GetToken(b, i).tok == 'a' && |args| + 1 < MAXARGS
    ensures var t := GetToken(b, i); var q := Redirs(b, t.next);
      q.Ok? ==> Args(b, i, args, []) == Args(b, q.next, args + [t.span], q.value)
  {
    hide GetToken; hide Skip; hide Peek; hide Redirs;
    var q := Redirs(b, GetToken(b, i).next);
    if q.Ok? {
      assert [] + q.value == q.value;
    }
  }

  lemma TextsSnoc(b: string, args: seq<Span>, i: nat, w: string)
    requires Printed(b, i, w)
    ensures Texts(b, args + [Span(i, i + |w|)]) == Texts(b, args) + [w]
  {}

  // What a simple command prints as: its words, then its redirections.
  function PrintExec(ws: seq<string>, rs: seq<Redirection<string>>): string {
    PrintArgs(ws) + PrintRedirs(rs)
  }

  lemma ExecSplit(b: string, i: nat, ws: seq<string>, rs: seq<Redirection<string>>)
    requires ws != [] && Printed(b, i, PrintExec(ws, rs))
    ensures Printed(b, i, ws[0] + " ") && Printed(b, i, ws[0])
    ensures Printed(b, i + |ws[0]| + 1, PrintExec(ws[1..], rs))
    ensures |PrintExec(ws, rs)| == |ws[0]| + 1 + |PrintExec(ws[1..], rs)|
  {
    hide Printed; hide PrintRedirs;
    assert PrintExec(ws, rs) == (ws[0] + " ") + PrintExec(ws[1..], rs);
    PrintedParts(b, i, ws[0] + " ", PrintExec(ws[1..], rs));
    PrintedParts(b, i, ws[0], " ");
  }

  // The argument loop, with all redirections after the last argument.
  lemma {:induction false} ArgsParse(b: string, i: nat, ws: seq<string>, rs: seq<Redirection<string>>, args: seq<Span>)
    requires ws != [] && |args| + |ws| < MAXARGS && NoNul(b)
    requires forall k | 0 <= k < |ws| :: GoodWord(ws[k])
    requires forall k | 0 <= k < |rs| :: GoodRedir(rs[k])
    requires Printed(b, i, PrintExec(ws, rs)) && i + |PrintExec(ws, rs)| <= |b|
    requires NextIn(b, i + |PrintExec(ws, rs)|, {'|', ')', '&', ';'})
    ensures Reads(b, Args(b, i, args, []), Wrap(rs, Exec(Texts(b, args) + ws)), Skip(b, i + |PrintExec(ws, rs)|))
    ensures WordChar(At(b, i)) && Skip(b, i) == i
    decreases |ws|
  {
    hide Args; hide Wrap; hide GetToken; hide Redirs; hide Skip; hide Printed; hide GoodWord; hide GoodRedir;
    hide PrintExec; hide Peek; hide NextIn; hide Reads; hide WordChar; hide At; hide Texts; hide NoNul;
    ExecSplit(b, i, ws, rs);
    ArgsWord(b, i, ws[0], args);
    TextsSnoc(b, args, i, ws[0]);
    var k := i + |ws[0]| + 1;
    var args' := args + [Span(i, i + |ws[0]|)];
    assert Texts(b, args') + ws[1..] == Texts(b, args) + ws;
    if |ws| == 1 {
      NoWords(ws[1..], rs);
      ArgsLast(b, k, rs, args');
      assert [ws[0]] == ws;
    } else {
      ArgsParse(b, k, ws[1..], rs, args');
      NoRedirs(b, k);
    }
  }

  lemma NoWords(ws: seq<string>, rs: seq<Redirection<string>>)
    requires ws == []
    ensures PrintExec(ws, rs) == PrintRedirs(rs)
  {
    assert PrintArgs(ws) == "";
  }

  lemma ArgsLast(b: string, k: nat, rs: seq<Redirection<string>>, args: seq<Span>)
    requires NoNul(b) && Printed(b, k, PrintRedirs(rs)) && k + |PrintRedirs(rs)| <= |b|
    requires NextIn(b, k + |PrintRedirs(rs)|, {'|', ')', '&', ';'}) && forall k | 0 <= k < |rs| :: GoodRedir(rs[k])
    ensures Redirs(b, k).Ok?
    ensures Reads(b, Args(b, Redirs(b, k).next, args, Redirs(b, k).value), Wrap(rs, Exec(Texts(b, args))),
        Skip(b, k + |PrintRedirs(rs)|))
  {
    hide Args; hide Wrap; hide Redirs; hide Skip; hide Peek; hide PrintRedirs;
    var j := k + |PrintRedirs(rs)|;
    NextInPeek(b, j, Follow(Simple), {'<', '>'});
    RedirsParse(b, k, rs);
    SkipTwice(b, j);
    ArgsEnd(b, Skip(b, j), args, Redirs(b, k).value);
  }

  lemma NoRedirs(b: string, k: nat)
    requires k <= |b| && WordChar(At(b, k)) && Skip(b, k) == k
    ensures Redirs(b, k) == Ok([], k)
  {}

  // ---------------------------------------------------------------- reading commands

  // What may follow a command printed at each level.
  function Follow(l: Level): set<char> {
    match l
    case Line => {')'}
    case Amp => {')', ';', '&'}
    case Piped => {')', ';', '&'}
    case Simple => {'|', ')', '&', ';'}
  }

  // parseline reaches position j with the command read so far being c.
  ghost predicate AmpParses(b: string, i: nat, c: Cmd<string>, j: nat)
    requires i <= |b| && j <= |b|
  {
    && ParsePipe(b, i).Ok?
    && exists d: Cmd<Span> ::
         Text(b, d) == c && Amps(b, ParsePipe(b, i).next, ParsePipe(b, i).value) == Amps(b, j, d)
  }

  // Parsing at each level; the level of `&` has no procedure of its own, only a loop.
  ghost predicate Parses(l: Level, b: string, i: nat, c: Cmd<string>, j: nat)
    requires i <= |b| && j <= |b|
  {
    match l
    case Line => Reads(b, ParseLine(b, i), c, j)
    case Amp => AmpParses(b, i, c, j)
    case Piped => Reads(b, ParsePipe(b, i), c, j)
    case Simple => Reads(b, ParseExec(b, i), c, j)
  }

  // c is printed at i, and what follows cannot be read as a part of it.
  predicate Stands(l: Level, b: string, i: nat, c: Cmd<string>) {
    && NoNul(b) && Printable(c)
    && Printed(b, i, Print(l, c)) && i + |Print(l, c)| <= |b|
    && NextIn(b, i + |Print(l, c)|, Follow(l))
  }

  // The parentheses around a block.
  function PrintBlock(c: Cmd<string>, rs: seq<Redirection<string>>): string {
    "(" + (Print(Line, c) + (")" + PrintRedirs(rs)))
  }

  lemma BlockSplit(b: string, i: nat, c: Cmd<string>, rs: seq<Redirection<string>>)
    requires Printed(b, i, PrintBlock(c, rs))
    ensures var m := i + 1 + |Print(Line, c)|;
      && |PrintBlock(c, rs)| == 2 + |Print(Line, c)| + |PrintRedirs(rs)| && m + 1 + |PrintRedirs(rs)| <= |b|
      && Printed(b, i, "(") && Printed(b, i + 1, Print(Line, c)) && Printed(b, m, ")")
      && Printed(b, m + 1, PrintRedirs(rs))
  {
    hide Print; hide PrintRedirs;
    var p := Print(Line, c);
    PrintedParts(b, i, "(", p + (")" + PrintRedirs(rs)));
    PrintedParts(b, i + 1, p, ")" + PrintRedirs(rs));
    PrintedParts(b, i + 1 + |p|, ")", PrintRedirs(rs));
  }

  // A one-character token of the grammar.
  lemma CharToken(b: string, i: nat, c: char)
    requires Printed(b, i, [c]) && c in {'|', '(', ')', ';', '&'}
    ensures i < |b| && Skip(b, i) == i && GetToken(b, i).next == Skip(b, i + 1)
    ensures Peek(b, i, {c}) && NextIn(b, i, {c}) && (c != '(' ==> !Peek(b, i, {'('}))
  {
    PrintedAt(b, i, [c], 0);
  }

  lemma BlockShape(b: string, i: nat, m: nat)
    requires i < |b| && Skip(b, i) == i && Peek(b, i, {'('}) && GetToken(b, i).next == Skip(b, i + 1)
    requires m < |b| && Skip(b, m) == m && Peek(b, m, {')'}) && GetToken(b, m).next == Skip(b, m + 1)
    ensures var p := ParseLine(b, i + 1); var q := Redirs(b, m + 1);
      p.Ok? && p.next == m && q.Ok? ==> ParseExec(b, i) == Ok(Wrap(q.value, p.value), q.next)
  {
    hide GetToken; hide Skip; hide Peek; hide Redirs; hide ParseLine; hide Wrap;
    LineSkip(b, i + 1);
    RedirsSkip(b, m + 1);
  }

  // A printed command with parentheses of its own.
  lemma BlockParse(b: string, i: nat, c: Cmd<string>, rs: seq<Redirection<string>>)
    requires NoNul(b) && forall k | 0 <= k < |rs| :: GoodRedir(rs[k])
    requires Printed(b, i, PrintBlock(c, rs)) && i + |PrintBlock(c, rs)| <= |b|
    requires NextIn(b, i + |PrintBlock(c, rs)|, Follow(Simple))
    requires i + 1 + |Print(Line, c)| <= |b| && Reads(b, ParseLine(b, i + 1), c, Skip(b, i + 1 + |Print(Line, c)|))
    ensures Reads(b, ParseExec(b, i), Wrap(rs, c), Skip(b, i + |PrintBlock(c, rs)|))
  {
    hide Print; hide PrintRedirs; hide PrintBlock; hide Printed; hide Peek; hide Skip; hide GetToken; hide NextIn;
    hide NoNul; hide ParseLine; hide ParseExec; hide Redirs; hide Wrap; hide GoodRedir; hide RedirTexts; hide Text;
    BlockSplit(b, i, c, rs);
    var m := i + 1 + |Print(Line, c)|;
    var e := m + 1 + |PrintRedirs(rs)|;
    CharToken(b, i, '(');
    CharToken(b, m, ')');
    NextInPeek(b, e, Follow(Simple), {'<', '>'});
    RedirsParse(b, m + 1, rs);
    BlockShape(b, i, m);
    TextOfWrap(b, Redirs(b, m + 1).value, ParseLine(b, i + 1).value);
  }

  // Every procedure starts by skipping white space.
  lemma ExecSkip(b: string, i: nat)
    requires i <= |b|
    ensures ParseExec(b, Skip(b, i)) == ParseExec(b, i)
  {
    hide Redirs; hide Args; hide ParseBlock;
    SkipTwice(b, i);
  }

  lemma LineSkip(b: string, i: nat)
    requires i <= |b|
    ensures ParseLine(b, Skip(b, i)) == ParseLine(b, i)
    ensures ParsePipe(b, Skip(b, i)) == ParsePipe(b, i)
  {
    hide ParseExec; hide GetToken; hide Peek; hide Skip; hide Amps;
    ExecSkip(b, i);
    assert ParsePipe(b, Skip(b, i)) == ParsePipe(b, i);
  }

  // ---------------------------------------------------------------- one level at a time

  lemma AmpStep(b: string, m: nat, d: Cmd<Span>)
    requires Printed(b, m, "&")
    ensures m + 1 <= |b| && Amps(b, m, d) == Amps(b, Skip(b, m + 1), Back(d))
  {
    CharToken(b, m, '&');
  }

  lemma AmpBack(b: string, i: nat, x: Cmd<string>, m: nat)
    requires i <= |b| && Printed(b, m, "&") && m <= |b| && AmpParses(b, i, x, m)
    ensures m + 1 <= |b| && AmpParses(b, i, Back(x), Skip(b, m + 1))
  {
    hide Amps; hide ParsePipe; hide Skip;
    var d: Cmd<Span> :| Text(b, d) == x && Amps(b, ParsePipe(b, i).next, ParsePipe(b, i).value) == Amps(b, m, d);
    AmpStep(b, m, d);
    assert Text(b, Back(d)) == Back(x);
  }

  lemma AmpPipe(b: string, i: nat, c: Cmd<string>, j: nat)
    requires i <= |b| && j <= |b| && Reads(b, ParsePipe(b, i), c, j)
    ensures AmpParses(b, i, c, j)
  {
    hide Amps; hide ParsePipe;
    assert Text(b, ParsePipe(b, i).value) == c;
  }

  lemma LineAmp(b: string, i: nat, c: Cmd<string>, j: nat)
    requires i <= |b| && j <= |b| && Skip(b, j) == j && AmpParses(b, i, c, j) && NextIn(b, j, Follow(Line))
    ensures Reads(b, ParseLine(b, i), c, j)
  {
    NextInPeek(b, j, Follow(Line), {'&'});
    NextInPeek(b, j, Follow(Line), {';'});
    hide ParsePipe; hide Skip; hide Peek; hide GetToken; hide NextIn;
    var d: Cmd<Span> :| Text(b, d) == c && Amps(b, ParsePipe(b, i).next, ParsePipe(b, i).value) == Amps(b, j, d);
    assert Amps(b, j, d) == Ok(d, j);
  }

  lemma AmpsStop(b: string, m: nat, d: Cmd<Span>)
    requires Printed(b, m, ";") && m <= |b|
    ensures Amps(b, m, d) == Ok(d, m)
  {
    CharToken(b, m, ';');
    NextInPeek(b, m, {';'}, {'&'});
  }

  lemma LineList(b: string, i: nat, l: Cmd<string>, r: Cmd<string>, m: nat, j: nat)
    requires i <= |b| && m <= |b| && AmpParses(b, i, l, m) && Printed(b, m, ";")
    requires m + 1 <= |b| && Reads(b, ParseLine(b, m + 1), r, j)
    ensures Reads(b, ParseLine(b, i), List(l, r), j)
  {
    hide Skip; hide Peek; hide GetToken; hide Printed;
    var d: Cmd<Span> :| Text(b, d) == l && Amps(b, ParsePipe(b, i).next, ParsePipe(b, i).value) == Amps(b, m, d);
    AmpsStop(b, m, d);
    CharToken(b, m, ';');
    LineSkip(b, m + 1);
    hide Amps; hide ParsePipe;
    LineListShape(b, i, m);
  }

  lemma LineListShape(b: string, i: nat, m: nat)
    requires i <= |b| && m < |b| && ParsePipe(b, i).Ok?
        && Amps(b, ParsePipe(b, i).next, ParsePipe(b, i).value).next == m
    requires Skip(b, m) == m && Peek(b, m, {';'})
    ensures var d := Amps(b, ParsePipe(b, i).next, ParsePipe(b, i).value).value;
      var p := ParseLine(b, GetToken(b, m).next);
      p.Ok? ==> ParseLine(b, i) == Ok(List(d, p.value), p.next)
  {
    hide ParsePipe; hide Amps; hide Skip; hide Peek; hide GetToken;
  }

  lemma PipeOne(b: string, i: nat, c: Cmd<string>, j: nat)
    requires i <= |b| && j <= |b| && Skip(b, j) == j && Reads(b, ParseExec(b, i), c, j) && NextIn(b, j, Follow(Piped))
    ensures Reads(b, ParsePipe(b, i), c, j)
  {
    NextInPeek(b, j, Follow(Piped), {'|'});
    hide ParseExec; hide Skip; hide Peek; hide GetToken; hide NextIn;
  }

  lemma PipeTwo(b: string, i: nat, l: Cmd<string>, r: Cmd<string>, m: nat, j: nat)
    requires i <= |b| && m + 1 <= |b| && Reads(b, ParseExec(b, i), l, m) && Printed(b, m, "|")
    requires Reads(b, ParsePipe(b, m + 1), r, j)
    ensures Reads(b, ParsePipe(b, i), Pipe(l, r), j)
  {
    hide ParseExec; hide Skip; hide Peek; hide GetToken; hide Printed;
    CharToken(b, m, '|');
    LineSkip(b, m + 1);
  }

  // ---------------------------------------------------------------- simple commands

  lemma WordStart(b: string, i: nat)
    requires i <= |b| && WordChar(At(b, i)) && Skip(b, i) == i
    ensures ParseExec(b, i) == Args(b, i, [], [])
  {
    NoRedirs(b, i);
  }

  lemma RedirStart(b: string, i: nat)
    requires i <= |b| && !Peek(b, i, {'('})
    ensures Redirs(b, i).Ok? ==> ParseExec(b, i) == Args(b, Redirs(b, i).next, [], Redirs(b, i).value)
  {
    hide Redirs; hide Skip; hide Peek; hide Args;
    RedirsSkip(b, i);
  }

  lemma RedirFirst(b: string, i: nat, rs: seq<Redirection<string>>)
    requires Printed(b, i, PrintRedirs(rs)) && i + |PrintRedirs(rs)| <= |b| && NoNul(b)
    requires NextIn(b, i + |PrintRedirs(rs)|, Follow(Simple)) && forall k | 0 <= k < |rs| :: GoodRedir(rs[k])
    ensures !Peek(b, i, {'('})
  {
    if rs == [] {
      NextInPeek(b, i, Follow(Simple), {'('});
    } else {
      RedirsSplit(b, i, rs);
      hide PrintRedirs; hide Printed; hide NoNul; hide NextIn;
      RedirToken(b, i, rs[0]);
    }
  }

  lemma ExecParse(b: string, i: nat, args: seq<string>, rs: seq<Redirection<string>>)
    requires NoNul(b) && Printable(Exec(args)) && forall k | 0 <= k < |rs| :: GoodRedir(rs[k])
    requires Printed(b, i, PrintExec(args, rs)) && i + |PrintExec(args, rs)| <= |b|
    requires NextIn(b, i + |PrintExec(args, rs)|, Follow(Simple))
    ensures Reads(b, ParseExec(b, i), Wrap(rs, Exec(args)), Skip(b, i + |PrintExec(args, rs)|))
  {
    hide GetToken; hide Redirs; hide Skip; hide Printed; hide GoodWord; hide GoodRedir; hide Args; hide ParseExec;
    hide PrintExec; hide PrintRedirs; hide Peek; hide NextIn; hide WordChar; hide At; hide NoNul; hide Wrap;
    if args == [] {
      NoWords(args, rs);
      RedirFirst(b, i, rs);
      RedirStart(b, i);
      ArgsLast(b, i, rs, []);
      assert Texts(b, []) == args;
    } else {
      ArgsParse(b, i, args, rs, []);
      WordStart(b, i);
      assert Texts(b, []) + args == args;
    }
  }

  lemma {:induction false} BaseSmaller<W>(c: Cmd<W>)
    ensures Base(c) == c || Base(c) < c
  {
    if c.Redir? { BaseSmaller(c.cmd); }
  }

  // ---------------------------------------------------------------- the round trip

  // What a parse at a position skips to begin with does not matter to Printed text and what follows.
  lemma NextHere(b: string, m: nat, c: char, toks: set<char>)
    requires Printed(b, m, [c]) && c in {'|', '(', ')', ';', '&'} && c in toks
    ensures m < |b| && Skip(b, m) == m && NextIn(b, m, toks)
  {
    CharToken(b, m, c);
  }

  lemma NextSkip(b: string, j: nat, toks: set<char>)
    requires j <= |b| && NextIn(b, j, toks)
    ensures Skip(b, Skip(b, j)) == Skip(b, j) && NextIn(b, Skip(b, j), toks)
  {
    SkipTwice(b, j);
  }

  lemma ListSplit(b: string, i: nat, c: Cmd<string>)
    requires Stands(Line, b, i, c) && c.List?
    ensures var m := i + |Print(Amp, c.left)|;
      && |Print(Line, c)| == |Print(Amp, c.left)| + 1 + |Print(Line, c.right)|
      && m < |b| && Printed(b, m, ";") && Stands(Amp, b, i, c.left) && Stands(Line, b, m + 1, c.right)
  {
    hide NoNul; hide Printed; hide Skip; hide NextIn;
    var p, q := Print(Amp, c.left), Print(Line, c.right);
    assert Print(Line, c) == p + (";" + q);
    hide Print;
    PrintedParts(b, i, p, ";" + q);
    PrintedParts(b, i + |p|, ";", q);
    NextHere(b, i + |p|, ';', Follow(Amp));
  }

  lemma {:induction false} PrintedList(b: string, i: nat, c: Cmd<string>)
    requires Stands(Line, b, i, c) && c.List?
    ensures Parses(Line, b, i, c, Skip(b, i + |Print(Line, c)|))
    decreases c, Distance(Line, c), 0
  {
    hide Print; hide Stands; hide Printed; hide Skip; hide ParseLine; hide AmpParses; hide Text; hide ParsePipe;
    ListSplit(b, i, c);
    var m := i + |Print(Amp, c.left)|;
    StandsIn(Amp, b, i, c.left);
    StandsIn(Line, b, m + 1, c.right);
    NextHere(b, m, ';', {';'});
    ParsePrint(Amp, b, i, c.left);
    ParsePrint(Line, b, m + 1, c.right);
    LineList(b, i, c.left, c.right, m, Skip(b, i + |Print(Line, c)|));
  }

  lemma StandsIn(l: Level, b: string, i: nat, c: Cmd<string>)
    requires Stands(l, b, i, c)
    ensures i + |Print(l, c)| <= |b| && NextIn(b, i + |Print(l, c)|, Follow(l))
  {}

  // A command that a level prints as the next tighter one does.
  lemma StandsTighter(l: Level, k: Level, b: string, i: nat, c: Cmd<string>)
    requires Stands(l, b, i, c) && Natural(c) != l.Rank() && k.Rank() == l.Rank() + 1
    ensures Print(l, c) == Print(k, c) && Stands(k, b, i, c) && i + |Print(l, c)| <= |b|
  {
    hide NoNul; hide Printed; hide Skip; hide Printable;
    assert Print(l, c) == Print(k, c);
    hide Print;
  }

  lemma {:induction false} PrintedNoList(b: string, i: nat, c: Cmd<string>)
    requires Stands(Line, b, i, c) && !c.List?
    ensures Parses(Line, b, i, c, Skip(b, i + |Print(Line, c)|))
    decreases c, Distance(Line, c), 0
  {
    hide Print; hide Stands; hide Printed; hide Skip; hide ParseLine; hide AmpParses; hide Text; hide ParsePipe;
    hide NextIn;
    StandsTighter(Line, Amp, b, i, c);
    StandsIn(Line, b, i, c);
    ParsePrint(Amp, b, i, c);
    var j := i + |Print(Line, c)|;
    NextSkip(b, j, Follow(Line));
    LineAmp(b, i, c, Skip(b, j));
  }

  lemma BackSplit(b: string, i: nat, c: Cmd<string>)
    requires Stands(Amp, b, i, c) && c.Back?
    ensures var m := i + |Print(Amp, c.cmd)|;
      && |Print(Amp, c)| == |Print(Amp, c.cmd)| + 1
      && m < |b| && Printed(b, m, "&") && Stands(Amp, b, i, c.cmd)
  {
    hide NoNul; hide Printed; hide Skip; hide NextIn;
    assert Print(Amp, c) == Print(Amp, c.cmd) + "&";
    hide Print;
    PrintedParts(b, i, Print(Amp, c.cmd), "&");
    NextHere(b, i + |Print(Amp, c.cmd)|, '&', Follow(Amp));
  }

  lemma {:induction false} PrintedBack(b: string, i: nat, c: Cmd<string>)
    requires Stands(Amp, b, i, c) && c.Back?
    ensures Parses(Amp, b, i, c, Skip(b, i + |Print(Amp, c)|))
    decreases c, Distance(Amp, c), 0
  {
    hide Print; hide Stands; hide Printed; hide Skip; hide ParseLine; hide AmpParses; hide Text; hide ParsePipe;
    hide NextIn;
    BackSplit(b, i, c);
    var m := i + |Print(Amp, c.cmd)|;
    NextHere(b, m, '&', {'&'});
    ParsePrint(Amp, b, i, c.cmd);
    AmpBack(b, i, c.cmd, m);
  }

  lemma {:induction false} PrintedNoBack(b: string, i: nat, c: Cmd<string>)
    requires Stands(Amp, b, i, c) && !c.Back?
    ensures Parses(Amp, b, i, c, Skip(b, i + |Print(Amp, c)|))
    decreases c, Distance(Amp, c), 0
  {
    hide Print; hide Stands; hide Printed; hide Skip; hide ParseLine; hide AmpParses; hide Text; hide ParsePipe;
    hide NextIn;
    StandsTighter(Amp, Piped, b, i, c);
    ParsePrint(Piped, b, i, c);
    AmpPipe(b, i, c, Skip(b, i + |Print(Amp, c)|));
  }

  lemma PipeSplit(b: string, i: nat, c: Cmd<string>)
    requires Stands(Piped, b, i, c) && c.Pipe?
    ensures var m := i + |Print(Simple, c.left)|;
      && |Print(Piped, c)| == |Print(Simple, c.left)| + 1 + |Print(Piped, c.right)|
      && m < |b| && Printed(b, m, "|") && Stands(Simple, b, i, c.left) && Stands(Piped, b, m + 1, c.right)
  {
    hide NoNul; hide Printed; hide Skip; hide NextIn;
    var p, q := Print(Simple, c.left), Print(Piped, c.right);
    assert Print(Piped, c) == p + ("|" + q);
    hide Print;
    PrintedParts(b, i, p, "|" + q);
    PrintedParts(b, i + |p|, "|", q);
    NextHere(b, i + |p|, '|', Follow(Simple));
  }

  lemma {:induction false} PrintedPipe(b: string, i: nat, c: Cmd<string>)
    requires Stands(Piped, b, i, c) && c.Pipe?
    ensures Parses(Piped, b, i, c, Skip(b, i + |Print(Piped, c)|))
    decreases c, Distance(Piped, c), 0
  {
    hide Print; hide Stands; hide Printed; hide Skip; hide ParseExec; hide Text; hide ParsePipe; hide NextIn;
    PipeSplit(b, i, c);
    var m := i + |Print(Simple, c.left)|;
    StandsIn(Piped, b, m + 1, c.right);
    NextHere(b, m, '|', {'|'});
    ParsePrint(Simple, b, i, c.left);
    ParsePrint(Piped, b, m + 1, c.right);
    PipeTwo(b, i, c.left, c.right, m, Skip(b, i + |Print(Piped, c)|));
  }

  lemma {:induction false} PrintedNoPipe(b: string, i: nat, c: Cmd<string>)
    requires Stands(Piped, b, i, c) && !c.Pipe?
    ensures Parses(Piped, b, i, c, Skip(b, i + |Print(Piped, c)|))
    decreases c, Distance(Piped, c), 0
  {
    hide Print; hide Stands; hide Printed; hide Skip; hide ParseExec; hide Text; hide ParsePipe; hide NextIn;
    StandsTighter(Piped, Simple, b, i, c);
    StandsIn(Piped, b, i, c);
    ParsePrint(Simple, b, i, c);
    var j := i + |Print(Simple, c)|;
    NextSkip(b, j, Follow(Piped));
    PipeOne(b, i, c, Skip(b, j));
  }

  // A simple command and a block, both with their redirections.
  lemma SimpleText(c: Cmd<string>)
    requires Printable(c)
    ensures Print(Simple, c) ==
            if Base(c).Exec? then PrintExec(Base(c).args, RedirList(c)) else PrintBlock(Base(c), RedirList(c))
  {
    PrintBase(c);
    WrapBase(c);
    BaseText(Base(c), RedirList(c));
    hide Print; hide PrintRedirs; hide Base; hide RedirList; hide PrintExec; hide PrintBlock;
  }

  lemma BaseText(x: Cmd<string>, rs: seq<Redirection<string>>)
    requires !x.Redir?
    ensures Print(Simple, x) + PrintRedirs(rs) == if x.Exec? then PrintExec(x.args, rs) else PrintBlock(x, rs)
  {
    hide PrintRedirs; hide PrintArgs;
    if !x.Exec? {
      var p, q := Print(Line, x), PrintRedirs(rs);
      assert Print(Simple, x) == "(" + (p + ")");
      assert PrintBlock(x, rs) == "(" + (p + (")" + q));
      hide Print;
      BlockText(p, q);
    }
  }

  lemma BlockText(p: string, q: string)
    ensures ("(" + (p + ")")) + q == "(" + (p + (")" + q))
  {}

  lemma {:induction false} PrintedSimple(b: string, i: nat, c: Cmd<string>)
    requires Stands(Simple, b, i, c)
    ensures Parses(Simple, b, i, c, Skip(b, i + |Print(Simple, c)|))
    decreases c, Distance(Simple, c), 0
  {
    hide Print; hide NoNul; hide Printed; hide NextIn; hide Skip; hide ParseExec; hide ParseLine; hide Text;
    hide PrintExec; hide PrintBlock; hide GoodRedir; hide PrintRedirs; hide Printable; hide Wrap; hide Base;
    hide RedirList;
    SimpleText(c);
    PrintBase(c);
    WrapBase(c);
    var x, rs := Base(c), RedirList(c);
    if x.Exec? {
      ExecParse(b, i, x.args, rs);
    } else {
      BlockSplit(b, i, x, rs);
      BaseSmaller(c);
      NextHere(b, i + 1 + |Print(Line, x)|, ')', Follow(Line));
      ParsePrint(Line, b, i + 1, x);
      BlockParse(b, i, x, rs);
    }
  }

  lemma {:induction false} ParsePrint(l: Level, b: string, i: nat, c: Cmd<string>)
    requires Stands(l, b, i, c)
    ensures Parses(l, b, i, c, Skip(b, i + |Print(l, c)|))
    decreases c, Distance(l, c), 1
  {
    hide Print; hide Stands; hide Parses; hide Skip;
    match l
    case Line => if c.List? { PrintedList(b, i, c); } else { PrintedNoList(b, i, c); }
    case Amp => if c.Back? { PrintedBack(b, i, c); } else { PrintedNoBack(b, i, c); }
    case Piped => if c.Pipe? { PrintedPipe(b, i, c); } else { PrintedNoPipe(b, i, c); }
    case Simple => PrintedSimple(b, i, c);
  }

  lemma RedirNoNul(r: Redirection<string>)
    requires GoodRedir(r)
    ensures NoNul(PrintRedir(r))
  {}

  lemma NoNulTokens()
    ensures NoNul("") && NoNul("&") && NoNul("|") && NoNul(";") && NoNul("(") && NoNul(")")
  {}

  lemma {:induction false} ArgsNoNul(ws: seq<string>)
    requires forall k | 0 <= k < |ws| :: GoodWord(ws[k])
    ensures NoNul(PrintArgs(ws))
  {
    if ws != [] {
      assert NoNul(ws[0] + " ");
      ArgsNoNul(ws[1..]);
    }
  }

  lemma NoNulParts(s: string, t: string, u: string)
    requires NoNul(s) && NoNul(t) && NoNul(u)
    ensures NoNul(s + (t + u))
  {}

  lemma {:induction false} PrintedNoNul(l: Level, c: Cmd<string>)
    requires Printable(c)
    ensures NoNul(Print(l, c))
    decreases c, Distance(l, c)
  {
    hide NoNul; hide PrintArgs; hide PrintRedir; hide GoodWord; hide GoodMode;
    NoNulTokens();
    match l
    case Line =>
      if c.List? {
        PrintedNoNul(Amp, c.left); PrintedNoNul(Line, c.right);
        NoNulParts(Print(Amp, c.left), ";", Print(Line, c.right));
      } else {
        PrintedNoNul(Amp, c);
      }
    case Amp =>
      if c.Back? {
        PrintedNoNul(Amp, c.cmd);
        NoNulParts(Print(Amp, c.cmd), "&", "");
        assert "&" + "" == "&";
      } else {
        PrintedNoNul(Piped, c);
      }
    case Piped =>
      if c.Pipe? {
        PrintedNoNul(Simple, c.left); PrintedNoNul(Piped, c.right);
        NoNulParts(Print(Simple, c.left), "|", Print(Piped, c.right));
      } else {
        PrintedNoNul(Simple, c);
      }
    case Simple =>
      if c.Exec? {
        ArgsNoNul(c.args);
      } else if c.Redir? {
        PrintedNoNul(Simple, c.cmd);
        var r := Redirection(c.file, c.mode, c.fd);
        RedirNoNul(r);
        NoNulParts(Print(Simple, c.cmd), PrintRedir(r), "");
        assert PrintRedir(r) + "" == PrintRedir(r);
      } else {
        PrintedNoNul(Line, c);
        NoNulParts("(", Print(Line, c), ")");
      }
  }

  // Parsing undoes printing.
  lemma ParseUndoesPrint(c: Cmd<string>)
    requires Printable(c)
    ensures var b := Print(Line, c); ParseCmd(b).Ok? && Text(b, ParseCmd(b).value) == c
  {
    var b := Print(Line, c);
    PrintedNoNul(Line, c);
    assert b[0..|b|] == b;
    ParsePrint(Line, b, 0, c);
  }
}
