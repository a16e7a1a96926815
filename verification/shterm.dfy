/** What every successful parse looks like, and what writing NULs at the ends of its words does. */
module ShTerm {
  import opened ShSpec
  import opened ShPrint

  // ---------------------------------------------------------------- the words of a parse

  // w is a maximal run of word characters of the line.
  predicate GoodSpan(b: string, w: Span) {
    && w.q < w.eq <= |b|
    && (forall k | w.q <= k < w.eq :: WordChar(b[k]))
    && (w.eq < |b| ==> !WordChar(b[w.eq]))
    && (w.q > 0 ==> !WordChar(b[w.q - 1]))
  }

  // Position i does not lie inside a word.
  predicate Between(b: string, i: nat) {
    0 < i < |b| ==> !WordChar(b[i - 1]) || !WordChar(b[i])
  }

  lemma {:induction false} SkipBetween(b: string, i: nat)
    requires i <= |b|
    ensures Skip(b, i) > i ==> White(b[Skip(b, i) - 1])
    ensures Between(b, i) ==> Between(b, Skip(b, i))
    decreases |b| - i
  {
    if i < |b| && White(b[i]) {
      SkipBetween(b, i + 1);
    }
  }

  // The parser's cursor never stops inside a word.
  lemma TokenBetween(b: string, i: nat)
    requires i <= |b| && NoNul(b) && Between(b, i)
    ensures Between(b, Skip(b, i)) && Between(b, GetToken(b, i).next)
  {
    SkipBetween(b, i);
    var eq := GetToken(b, i).span.eq;
    SkipBetween(b, eq);
    assert Between(b, eq);
  }

  predicate GoodSpans(b: string, ws: seq<Span>) {
    |ws| < MAXARGS && forall k | 0 <= k < |ws| :: GoodSpan(b, ws[k])
  }

  predicate GoodRedirs(b: string, rs: seq<Redirection<Span>>) {
    forall k | 0 <= k < |rs| :: GoodSpan(b, rs[k].file) && GoodMode(rs[k].mode, rs[k].fd)
  }

  predicate GoodTree(b: string, c: Cmd<Span>) {
    match c
    case Exec(args) => GoodSpans(b, args)
    case Redir(x, f, mode, fd) => GoodTree(b, x) && GoodSpan(b, f) && GoodMode(mode, fd)
    case Pipe(l, r) => GoodTree(b, l) && GoodTree(b, r)
    case List(l, r) => GoodTree(b, l) && GoodTree(b, r)
    case Back(x) => GoodTree(b, x)
  }

  lemma {:induction false} WrapGood(b: string, rs: seq<Redirection<Span>>, c: Cmd<Span>)
    requires GoodRedirs(b, rs) && GoodTree(b, c)
    ensures GoodTree(b, Wrap(rs, c))
  {
    hide GoodSpan; hide GoodMode;
    if rs != [] {
      WrapGood(b, rs[..|rs| - 1], c);
    }
  }

  lemma TokenGood(b: string, i: nat)
    requires i <= |b| && NoNul(b) && Between(b, i) && GetToken(b, i).tok == 'a'
    ensures GoodSpan(b, GetToken(b, i).span)
  {
    SkipBetween(b, i);
  }

  lemma PeekedToken(b: string, i: nat, toks: set<char>)
    requires i <= |b| && Peek(b, i, toks)
    ensures GetToken(b, Skip(b, i)).tok != NUL
  {}

  lemma {:induction false} RedirsGood(b: string, i: nat)
    requires i <= |b| && NoNul(b) && Between(b, i)
    ensures var r := Redirs(b, i); r.Ok? ==> GoodRedirs(b, r.value) && Between(b, r.next)
    decreases |b| - i
  {
    hide NoNul; hide GoodSpan; hide Between; hide GetToken; hide Peek; hide Skip;
    TokenBetween(b, i);
    if Peek(b, i, {'<', '>'}) {
      var t := GetToken(b, Skip(b, i));
      var f := GetToken(b, t.next);
      PeekedToken(b, i, {'<', '>'});
      TokenBetween(b, Skip(b, i));
      TokenBetween(b, t.next);
      if f.tok == 'a' {
        TokenGood(b, t.next);
        RedirsGood(b, f.next);
      }
    }
  }

  lemma {:induction false} ArgsGood(b: string, i: nat, args: seq<Span>, rs: seq<Redirection<Span>>)
    requires i <= |b| && NoNul(b) && Between(b, i) && GoodSpans(b, args) && GoodRedirs(b, rs)
    ensures var r := Args(b, i, args, rs); r.Ok? ==> GoodTree(b, r.value) && Between(b, r.next)
    decreases |b| - i
  {
    hide NoNul; hide GoodSpan; hide GoodMode; hide Wrap; hide Peek; hide GetToken; hide Skip; hide Redirs; hide Between;
    WrapGood(b, rs, Exec(args));
    TokenBetween(b, i);
    TokenBetween(b, Skip(b, i));
    var t := GetToken(b, Skip(b, i));
    if !Peek(b, i, {'|', ')', '&', ';'}) && t.tok == 'a' && |args| + 1 < MAXARGS && Redirs(b, t.next).Ok? {
      TokenGood(b, Skip(b, i));
      RedirsGood(b, t.next);
      ArgsGood(b, Redirs(b, t.next).next, args + [t.span], rs + Redirs(b, t.next).value);
    }
  }

  lemma {:induction false} AmpsGood(b: string, i: nat, c: Cmd<Span>)
    requires i <= |b| && NoNul(b) && Between(b, i) && GoodTree(b, c)
    ensures GoodTree(b, Amps(b, i, c).value) && Between(b, Amps(b, i, c).next)
    decreases |b| - i
  {
    hide GoodSpans; hide GoodSpan; hide Between; hide NoNul;
    TokenBetween(b, i);
    TokenBetween(b, Skip(b, i));
    if Peek(b, i, {'&'}) {
      var t := GetToken(b, Skip(b, i));
      assert t.tok != NUL;
      hide GetToken; hide Peek; hide Skip;
      AmpsGood(b, t.next, Back(c));
    }
  }

  lemma {:induction false} LineGood(b: string, i: nat)
    requires i <= |b| && NoNul(b) && Between(b, i)
    ensures var r := ParseLine(b, i); r.Ok? ==> GoodTree(b, r.value) && Between(b, r.next)
    decreases |b| - i, 3
  {
    hide GoodSpans; hide GoodSpan; hide NoNul; hide ParsePipe; hide Amps; hide Between;
    PipeGood(b, i);
    var p := ParsePipe(b, i);
    if p.Ok? {
      AmpsGood(b, p.next, p.value);
      var a := Amps(b, p.next, p.value);
      TokenBetween(b, a.next);
      TokenBetween(b, Skip(b, a.next));
      if Peek(b, a.next, {';'}) {
        assert GetToken(b, Skip(b, a.next)).tok != NUL;
        hide GetToken; hide Peek; hide Skip;
        LineGood(b, GetToken(b, Skip(b, a.next)).next);
      }
    }
  }

  lemma {:induction false} PipeGood(b: string, i: nat)
    requires i <= |b| && NoNul(b) && Between(b, i)
    ensures var r := ParsePipe(b, i); r.Ok? ==> GoodTree(b, r.value) && Between(b, r.next)
    decreases |b| - i, 2
  {
    hide GoodSpans; hide GoodSpan; hide NoNul; hide ParseExec; hide Between;
    ExecGood(b, i);
    var p := ParseExec(b, i);
    if p.Ok? {
      TokenBetween(b, p.next);
      TokenBetween(b, Skip(b, p.next));
      if Peek(b, p.next, {'|'}) {
        assert GetToken(b, Skip(b, p.next)).tok != NUL;
        hide GetToken; hide Peek; hide Skip;
        PipeGood(b, GetToken(b, Skip(b, p.next)).next);
      }
    }
  }

  lemma {:induction false} ExecGood(b: string, i: nat)
    requires i <= |b| && NoNul(b) && Between(b, i)
    ensures var r := ParseExec(b, i); r.Ok? ==> GoodTree(b, r.value) && Between(b, r.next)
    decreases |b| - i, 1
  {
    hide GoodSpan; hide NoNul; hide GetToken; hide Peek; hide Skip; hide Redirs; hide Args; hide ParseBlock;
    hide GoodTree;
    hide GoodRedirs; hide Between;
    TokenBetween(b, i);
    if Peek(b, i, {'('}) {
      BlockGood(b, Skip(b, i));
    } else {
      RedirsGood(b, Skip(b, i));
      if Redirs(b, Skip(b, i)).Ok? {
        ArgsGood(b, Redirs(b, Skip(b, i)).next, [], Redirs(b, Skip(b, i)).value);
      }
    }
  }

  lemma {:induction false} BlockGood(b: string, i: nat)
    requires i <= |b| && NoNul(b) && Between(b, i)
    ensures var r := ParseBlock(b, i); r.Ok? ==> GoodTree(b, r.value) && Between(b, r.next)
    decreases |b| - i, 0
  {
    hide GoodSpan; hide NoNul; hide Redirs; hide ParseLine; hide GoodTree; hide GoodRedirs; hide Wrap; hide Between;
    if Peek(b, i, {'('}) {
      TokenBetween(b, i);
      TokenBetween(b, Skip(b, i));
      var t := GetToken(b, Skip(b, i));
      assert t.tok != NUL;
      hide GetToken; hide Peek; hide Skip;
      LineGood(b, t.next);
      var p := ParseLine(b, t.next);
      if p.Ok? && Peek(b, p.next, {')'}) {
        TokenBetween(b, p.next);
        TokenBetween(b, Skip(b, p.next));
        var u := GetToken(b, Skip(b, p.next)).next;
        RedirsGood(b, u);
        if Redirs(b, u).Ok? {
          WrapGood(b, Redirs(b, u).value, p.value);
        }
      }
    }
  }

  lemma GoodWordText(b: string, w: Span)
    requires GoodSpan(b, w)
    ensures GoodWord(SpanText(b, w))
  {}

  lemma {:induction false} GoodPrintable(b: string, c: Cmd<Span>)
    requires GoodTree(b, c)
    ensures Printable(Text(b, c))
  {
    hide GoodSpan; hide GoodWord; hide SpanText;
    match c
    case Exec(args) =>
      forall k | 0 <= k < |args|
        ensures GoodWord(SpanText(b, args[k]))
      {
        GoodWordText(b, args[k]);
      }
    case Redir(x, f, _, _) => GoodPrintable(b, x); GoodWordText(b, f);
    case Pipe(l, r) => GoodPrintable(b, l); GoodPrintable(b, r);
    case List(l, r) => GoodPrintable(b, l); GoodPrintable(b, r);
    case Back(x) => GoodPrintable(b, x);
  }

  // The parser produces the printable commands and no others.
  lemma ParsesExactlyPrintable(c: Cmd<string>)
    ensures Printable(c) <==> exists b: string :: NoNul(b) && ParseCmd(b).Ok? && Text(b, ParseCmd(b).value) == c
  {
    hide Print; hide Printable; hide NoNul; hide GoodTree;
    if Printable(c) {
      ParseUndoesPrint(c);
      PrintedNoNul(Line, c);
    }
    forall b: string | NoNul(b) && ParseCmd(b).Ok? && Text(b, ParseCmd(b).value) == c
      ensures Printable(c)
    {
      LineGood(b, 0);
      GoodPrintable(b, ParseCmd(b).value);
    }
  }

  // ---------------------------------------------------------------- NUL termination

  // The positions nulterminate writes.
  function Ends(c: Cmd<Span>): set<nat> {
    match c
    case Exec(args) => EndsOf(args)
    case Redir(x, f, _, _) => Ends(x) + {f.eq}
    case Pipe(l, r) => Ends(l) + Ends(r)
    case List(l, r) => Ends(l) + Ends(r)
    case Back(x) => Ends(x)
  }

  function EndsOf(args: seq<Span>): set<nat> {
    set k | 0 <= k < |args| :: args[k].eq
  }

  // The C string that starts at i: up to the first NUL.
  function CString(buf: string, i: nat): string
    requires i <= |buf|
    decreases |buf| - i
  {
    if i == |buf| || buf[i] == NUL then "" else [buf[i]] + CString(buf, i + 1)
  }

  function StringAt(buf: string, w: Span): string {
    if w.q <= |buf| then CString(buf, w.q) else ""
  }

  function StringsAt(buf: string, ws: seq<Span>): (r: seq<string>)
    ensures |r| == |ws| && forall k | 0 <= k < |ws| :: r[k] == StringAt(buf, ws[k])
  {
    seq(|ws|, k requires 0 <= k < |ws| => StringAt(buf, ws[k]))
  }

  // What runcmd sees: the strings that the pointers q of a command's words point to.
  function Strings(buf: string, c: Cmd<Span>): Cmd<string> {
    match c
    case Exec(args) => Exec(StringsAt(buf, args))
    case Redir(x, f, mode, fd) => Redir(Strings(buf, x), StringAt(buf, f), mode, fd)
    case Pipe(l, r) => Pipe(Strings(buf, l), Strings(buf, r))
    case List(l, r) => List(Strings(buf, l), Strings(buf, r))
    case Back(x) => Back(Strings(buf, x))
  }

  // buf is the line with its final NUL, and NULs at the positions in es.
  predicate Terminated(b: string, buf: string, es: set<nat>) {
    && |buf| == |b| + 1
    && forall k | 0 <= k <= |b| :: buf[k] == if k == |b| || k in es then NUL else b[k]
  }

  lemma {:induction false} CStringIs(buf: string, i: nat, j: nat)
    requires i <= j < |buf| && buf[j] == NUL && forall k | i <= k < j :: buf[k] != NUL
    ensures CString(buf, i) == buf[i..j]
    decreases j - i
  {
    if i < j {
      CStringIs(buf, i + 1, j);
      assert buf[i..j] == [buf[i]] + buf[i + 1..j];
    }
  }

  // No word's end lies inside a word.
  predicate OutsideWords(b: string, es: set<nat>) {
    forall e | e in es && e < |b| :: !WordChar(b[e])
  }

  lemma {:induction false} EndsOutside(b: string, c: Cmd<Span>)
    requires GoodTree(b, c)
    ensures OutsideWords(b, Ends(c))
  {
    match c
    case Exec(args) =>
    case Redir(x, f, _, _) => EndsOutside(b, x);
    case Pipe(l, r) => EndsOutside(b, l); EndsOutside(b, r);
    case List(l, r) => EndsOutside(b, l); EndsOutside(b, r);
    case Back(x) => EndsOutside(b, x);
  }

  lemma WordTerminated(b: string, buf: string, es: set<nat>, w: Span)
    requires Terminated(b, buf, es) && OutsideWords(b, es) && GoodSpan(b, w) && w.eq in es
    ensures StringAt(buf, w) == SpanText(b, w)
  {
    forall k | w.q <= k < w.eq
      ensures buf[k] == b[k] && buf[k] != NUL
    {
      assert WordChar(b[k]);
    }
    CStringIs(buf, w.q, w.eq);
    assert buf[w.q..w.eq] == b[w.q..w.eq];
  }

  lemma {:induction false} TreeTerminated(b: string, buf: string, es: set<nat>, c: Cmd<Span>)
    requires Terminated(b, buf, es) && OutsideWords(b, es) && GoodTree(b, c) && Ends(c) <= es
    ensures Strings(buf, c) == Text(b, c)
  {
    hide Terminated; hide OutsideWords; hide GoodSpan; hide StringAt; hide SpanText;
    match c
    case Exec(args) =>
      forall k | 0 <= k < |args|
        ensures StringAt(buf, args[k]) == SpanText(b, args[k])
      {
        assert args[k].eq in EndsOf(args);
        WordTerminated(b, buf, es, args[k]);
      }
    case Redir(x, f, _, _) => TreeTerminated(b, buf, es, x); WordTerminated(b, buf, es, f);
    case Pipe(l, r) => TreeTerminated(b, buf, es, l); TreeTerminated(b, buf, es, r);
    case List(l, r) => TreeTerminated(b, buf, es, l); TreeTerminated(b, buf, es, r);
    case Back(x) => TreeTerminated(b, buf, es, x);
  }

  // After nulterminate, every string of the command is the word it was parsed from.
  lemma NulTerminationKeepsWords(b: string, buf: string, c: Cmd<Span>)
    requires GoodTree(b, c) && Terminated(b, buf, Ends(c))
    ensures Strings(buf, c) == Text(b, c)
  {
    EndsOutside(b, c);
    TreeTerminated(b, buf, Ends(c), c);
  }
}
