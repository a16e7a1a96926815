/** The shell's grammar as functions of a command line and a position in it: what each of the
    mutually recursive parsing procedures returns, and where it leaves the cursor. */
module ShSpec {

  const MAXARGS: nat := 10
  const O_RDONLY: nat := 0
  const O_WRONLY: nat := 0x001
  const O_CREATE: nat := 0x200

  const NUL: char := '\0'

  // Commands, over what stands for a word: a stretch of the line, or its text.
  datatype Cmd<W> =
    | Exec(args: seq<W>)
    | Redir(cmd: Cmd<W>, file: W, mode: nat, fd: nat)
    | Pipe(left: Cmd<W>, right: Cmd<W>)
    | List(left: Cmd<W>, right: Cmd<W>)
    | Back(cmd: Cmd<W>)

  // A word of the line: the positions q and eq of its start and end.
  datatype Span = Span(q: nat, eq: nat)

  datatype Redirection<W> = Redirection(file: W, mode: nat, fd: nat)

  datatype Parsed<T> = Ok(value: T, next: nat) | Panic(message: string)

  // strchr(whitespace, c) and strchr(symbols, c)
  predicate White(c: char) {
    c == ' ' || c == '\t' || c == '\r' || c == '\n' || c == '\U{00000B}'
  }

  predicate Symbol(c: char) {
    c == '<' || c == '|' || c == '>' || c == '&' || c == ';' || c == '(' || c == ')'
  }

  predicate WordChar(c: char) {
    c != NUL && !White(c) && !Symbol(c)
  }

  // *s, where the line ends in NUL.
  function At(b: string, i: nat): char {
    if i < |b| then b[i] else NUL
  }

  // ---------------------------------------------------------------- gettoken and peek

  function Skip(b: string, i: nat): (j: nat)
    requires i <= |b|
    ensures i <= j <= |b|
    ensures j < |b| ==> !White(b[j])
    decreases |b| - i
  {
    if i < |b| && White(b[i]) then Skip(b, i + 1) else i
  }

  function WordEnd(b: string, i: nat): (j: nat)
    requires i <= |b|
    ensures i <= j <= |b|
    ensures forall k | i <= k < j :: !White(b[k]) && !Symbol(b[k])
    ensures j < |b| ==> White(b[j]) || Symbol(b[j])
    decreases |b| - i
  {
    if i < |b| && !White(b[i]) && !Symbol(b[i]) then WordEnd(b, i + 1) else i
  }

  datatype Token = Token(tok: char, span: Span, next: nat)

  function GetToken(b: string, i: nat): (t: Token)
    requires i <= |b|
    ensures i <= t.span.q <= t.span.eq <= t.next <= |b|
    ensures t.tok != NUL ==> i < t.next
  {
    var q := Skip(b, i);
    var c := At(b, q);
    var (tok, eq) :=
      if c == NUL then (NUL, q)
      else if c in {'|', '(', ')', ';', '&', '<'} then (c, q + 1)
      else if c == '>' then (if At(b, q + 1) == '>' then ('+', q + 2) else ('>', q + 1))
      else ('a', WordEnd(b, q));
    Token(tok, Span(q, eq), Skip(b, eq))
  }

  // Is the next character one of toks?
  predicate Peek(b: string, i: nat, toks: set<char>)
    requires i <= |b|
  {
    At(b, Skip(b, i)) != NUL && At(b, Skip(b, i)) in toks
  }

  // ---------------------------------------------------------------- the grammar

  function Wrap<W>(rs: seq<Redirection<W>>, c: Cmd<W>): Cmd<W> {
    if rs == [] then c
    else
      var r := rs[|rs| - 1];
      Redir(Wrap(rs[..|rs| - 1], c), r.file, r.mode, r.fd)
  }

  // parseredirs: the redirections it wraps around its command, first one innermost.
  function Redirs(b: string, i: nat): (r: Parsed<seq<Redirection<Span>>>)
    requires i <= |b|
    ensures r.Ok? ==> i <= r.next <= |b|
    decreases |b| - i
  {
    if !Peek(b, i, {'<', '>'}) then Ok([], Skip(b, i))
    else
      var t := GetToken(b, Skip(b, i));
      var f := GetToken(b, t.next);
      if f.tok != 'a' then Panic("missing file for redirection")
      else
        var (mode, fd) := if t.tok == '<' then (O_RDONLY, 0) else (O_WRONLY + O_CREATE, 1);
        match Redirs(b, f.next)
        case Panic(m) => Panic(m)
        case Ok(rs, j) => Ok([Redirection(f.span, mode, fd)] + rs, j)
  }

  // The argument loop of parseexec.
  function Args(b: string, i: nat, args: seq<Span>, rs: seq<Redirection<Span>>): (r: Parsed<Cmd<Span>>)
    requires i <= |b|
    ensures r.Ok? ==> i <= r.next <= |b|
    decreases |b| - i
  {
    if Peek(b, i, {'|', ')', '&', ';'}) then Ok(Wrap(rs, Exec(args)), Skip(b, i))
    else
      var t := GetToken(b, Skip(b, i));
      if t.tok == NUL then Ok(Wrap(rs, Exec(args)), t.next)
      else if t.tok != 'a' then Panic("syntax")
      else if |args| + 1 >= MAXARGS then Panic("too many args")
      else
        match Redirs(b, t.next)
        case Panic(m) => Panic(m)
        case Ok(more, j) => Args(b, j, args + [t.span], rs + more)
  }

  function Amps(b: string, i: nat, c: Cmd<Span>): (r: Parsed<Cmd<Span>>)
    requires i <= |b|
    ensures r.Ok? && i <= r.next <= |b|
    decreases |b| - i
  {
    if Peek(b, i, {'&'}) then Amps(b, GetToken(b, Skip(b, i)).next, Back(c)) else Ok(c, Skip(b, i))
  }

  function ParseLine(b: string, i: nat): (r: Parsed<Cmd<Span>>)
    requires i <= |b|
    ensures r.Ok? ==> i <= r.next <= |b|
    decreases |b| - i, 3
  {
    match ParsePipe(b, i)
    case Panic(m) => Panic(m)
    case Ok(c, j) =>
      var a := Amps(b, j, c);
      if !Peek(b, a.next, {';'}) then Ok(a.value, Skip(b, a.next))
      else
        match ParseLine(b, GetToken(b, Skip(b, a.next)).next)
        case Panic(m) => Panic(m)
        case Ok(d, k) => Ok(List(a.value, d), k)
  }

  function ParsePipe(b: string, i: nat): (r: Parsed<Cmd<Span>>)
    requires i <= |b|
    ensures r.Ok? ==> i <= r.next <= |b|
    decreases |b| - i, 2
  {
    match ParseExec(b, i)
    case Panic(m) => Panic(m)
    case Ok(c, j) =>
      if !Peek(b, j, {'|'}) then Ok(c, Skip(b, j))
      else
        match ParsePipe(b, GetToken(b, Skip(b, j)).next)
        case Panic(m) => Panic(m)
        case Ok(d, k) => Ok(Pipe(c, d), k)
  }

  function ParseExec(b: string, i: nat): (r: Parsed<Cmd<Span>>)
    requires i <= |b|
    ensures r.Ok? ==> i <= r.next <= |b|
    decreases |b| - i, 1
  {
    if Peek(b, i, {'('}) then ParseBlock(b, Skip(b, i))
    else
      match Redirs(b, Skip(b, i))
      case Panic(m) => Panic(m)
      case Ok(rs, j) => Args(b, j, [], rs)
  }

  function ParseBlock(b: string, i: nat): (r: Parsed<Cmd<Span>>)
    requires i <= |b|
    ensures r.Ok? ==> i <= r.next <= |b|
    decreases |b| - i, 0
  {
    if !Peek(b, i, {'('}) then Panic("parseblock")
    else
      match ParseLine(b, GetToken(b, Skip(b, i)).next)
      case Panic(m) => Panic(m)
      case Ok(c, j) =>
        if !Peek(b, j, {')'}) then Panic("syntax - missing )")
        else
          match Redirs(b, GetToken(b, Skip(b, j)).next)
          case Panic(m) => Panic(m)
          case Ok(rs, k) => Ok(Wrap(rs, c), k)
  }

  // parsecmd, up to nulterminate.
  function ParseCmd(b: string): (r: Parsed<Cmd<Span>>)
    ensures r.Ok? ==> r.next == |b|
  {
    match ParseLine(b, 0)
    case Panic(m) => Panic(m)
    case Ok(c, j) => if Skip(b, j) != |b| then Panic("syntax") else Ok(c, |b|)
  }
}
