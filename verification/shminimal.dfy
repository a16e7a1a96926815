/** The printer uses as few parentheses as the grammar allows: no line that parses to a command has fewer
    than its print. */
module ShMinimal {
  import opened ShSpec
  import opened ShPrint
  import opened ShTerm

  function Opening(c: char): nat { if c == '(' then 1 else 0 }

  // The opening parentheses among the first n characters.
  function Parens(s: string, n: nat): nat
    requires n <= |s|
  {
    if n == 0 then 0 else Parens(s, n - 1) + Opening(s[n - 1])
  }

  lemma {:induction false} ParensMono(s: string, m: nat, n: nat)
    requires m <= n <= |s|
    ensures Parens(s, m) <= Parens(s, n)
    decreases n
  {
    if m < n {
      ParensMono(s, m, n - 1);
    }
  }

  lemma {:induction false} ParensConcat(s: string, t: string, n: nat)
    requires n <= |t|
    ensures Parens(s + t, |s| + n) == Parens(s, |s|) + Parens(t, n)
  {
    if n > 0 {
      ParensConcat(s, t, n - 1);
    } else {
      ParensPrefix(s, t, |s|);
    }
  }

  lemma {:induction false} ParensPrefix(s: string, t: string, n: nat)
    requires n <= |s|
    ensures Parens(s + t, n) == Parens(s, n)
  {
    if n > 0 {
      ParensPrefix(s, t, n - 1);
    }
  }

  function Total(s: string): nat { Parens(s, |s|) }

  lemma TotalConcat(s: string, t: string)
    ensures Total(s + t) == Total(s) + Total(t)
  {
    ParensConcat(s, t, |t|);
  }

  lemma {:induction false} NoneIn(s: string, n: nat)
    requires n <= |s| && forall k | 0 <= k < n :: s[k] != '('
    ensures Parens(s, n) == 0
  {
    if n > 0 {
      NoneIn(s, n - 1);
    }
  }

  // ---------------------------------------------------------------- what a command needs

  // The parentheses needed to write a command at a level of the grammar.
  function Needs<W>(l: Level, c: Cmd<W>): nat
    decreases c, Distance(l, c)
  {
    match l
    case Line => if c.List? then Needs(Amp, c.left) + Needs(Line, c.right) else Needs(Amp, c)
    case Amp => if c.Back? then Needs(Amp, c.cmd) else Needs(Piped, c)
    case Piped => if c.Pipe? then Needs(Simple, c.left) + Needs(Piped, c.right) else Needs(Simple, c)
    case Simple => if c.Exec? then 0 else if c.Redir? then Needs(Simple, c.cmd) else 1 + Needs(Line, c)
  }

  // A tighter level needs at least as many, and no more than one more.
  lemma Tighter<W>(c: Cmd<W>)
    ensures Needs(Line, c) <= Needs(Amp, c) <= Needs(Piped, c) <= Needs(Simple, c) <= 1 + Needs(Line, c)
  {}

  lemma {:induction false} NeedsText(b: string, l: Level, c: Cmd<Span>)
    ensures Needs(l, Text(b, c)) == Needs(l, c)
    decreases c, Distance(l, c)
  {
    hide Texts; hide SpanText;
    match l
    case Line =>
      if c.List? { NeedsText(b, Amp, c.left); NeedsText(b, Line, c.right); } else { NeedsText(b, Amp, c); }
    case Amp =>
      if c.Back? { NeedsText(b, Amp, c.cmd); } else { NeedsText(b, Piped, c); }
    case Piped =>
      if c.Pipe? { NeedsText(b, Simple, c.left); NeedsText(b, Piped, c.right); } else { NeedsText(b, Simple, c); }
    case Simple =>
      if c.Redir? { NeedsText(b, Simple, c.cmd); } else if !c.Exec? { NeedsText(b, Line, c); }
  }

  lemma {:induction false} WrapNeeds<W>(rs: seq<Redirection<W>>, c: Cmd<W>)
    ensures Needs(Simple, Wrap(rs, c)) == Needs(Simple, c)
  {
    if rs != [] {
      WrapNeeds(rs[..|rs| - 1], c);
    }
  }

  // ---------------------------------------------------------------- the print has them

  lemma WordTotal(w: string)
    requires GoodWord(w)
    ensures Total(w) == 0
  {
    NoneIn(w, |w|);
  }

  lemma {:induction false} ArgsTotal(args: seq<string>)
    requires forall k | 0 <= k < |args| :: GoodWord(args[k])
    ensures Total(PrintArgs(args)) == 0
  {
    hide GoodWord;
    if args != [] {
      ArgsTotal(args[1..]);
      WordTotal(args[0]);
      OneTotal(" ");
      TotalConcat(args[0] + " ", PrintArgs(args[1..]));
      TotalConcat(args[0], " ");
    }
  }

  lemma OneTotal(s: string)
    requires |s| == 1
    ensures Total(s) == Opening(s[0])
  {
    assert Parens(s, 0) == 0;
  }

  lemma RedirTotal(r: Redirection<string>)
    requires GoodRedir(r)
    ensures Total(PrintRedir(r)) == 0
  {
    hide GoodWord;
    var c := if r.mode == O_RDONLY then "<" else ">";
    WordTotal(r.file);
    OneTotal(c);
    OneTotal(" ");
    TotalConcat(c, r.file + " ");
    TotalConcat(r.file, " ");
  }

  lemma AroundTotal(s: string, m: string, t: string)
    requires |m| == 1
    ensures Total(s + (m + t)) == Total(s) + Opening(m[0]) + Total(t)
  {
    hide Total;
    OneTotal(m);
    TotalConcat(s, m + t);
    TotalConcat(m, t);
  }

  lemma {:induction false} PrintTotal(l: Level, c: Cmd<string>)
    requires Printable(c)
    ensures Total(Print(l, c)) == Needs(l, c)
    decreases c, Distance(l, c)
  {
    hide Total; hide GoodRedir; hide PrintArgs; hide PrintRedir; hide GoodWord;
    match l
    case Line =>
      if c.List? {
        PrintTotal(Amp, c.left);
        PrintTotal(Line, c.right);
        AroundTotal(Print(Amp, c.left), ";", Print(Line, c.right));
      } else {
        PrintTotal(Amp, c);
      }
    case Amp =>
      if c.Back? {
        PrintTotal(Amp, c.cmd);
        OneTotal("&");
        TotalConcat(Print(Amp, c.cmd), "&");
      } else {
        PrintTotal(Piped, c);
      }
    case Piped =>
      if c.Pipe? {
        PrintTotal(Simple, c.left);
        PrintTotal(Piped, c.right);
        AroundTotal(Print(Simple, c.left), "|", Print(Piped, c.right));
      } else {
        PrintTotal(Simple, c);
      }
    case Simple => SimpleTotal(c);
  }

  lemma {:induction false} SimpleTotal(c: Cmd<string>)
    requires Printable(c)
    ensures Total(Print(Simple, c)) == Needs(Simple, c)
    decreases c, Distance(Simple, c), 0
  {
    hide Total; hide GoodRedir; hide PrintArgs; hide PrintRedir; hide GoodWord;
    if c.Exec? {
      ArgsTotal(c.args);
    } else if c.Redir? {
      SimpleTotal(c.cmd);
      RedirTotal(Redirection(c.file, c.mode, c.fd));
      TotalConcat(Print(Simple, c.cmd), PrintRedir(Redirection(c.file, c.mode, c.fd)));
    } else {
      PrintTotal(Line, c);
      OneTotal("(");
      OneTotal(")");
      TotalConcat("(", Print(Line, c) + ")");
      TotalConcat(Print(Line, c), ")");
    }
  }

  // ---------------------------------------------------------------- every line has as many

  // From i to j the line has at least n of them.
  predicate Spends(b: string, i: nat, j: nat, n: nat) {
    i <= j <= |b| && Parens(b, i) + n <= Parens(b, j)
  }

  lemma SpendsMore(b: string, h: nat, i: nat, j: nat, k: nat, n: nat)
    requires Spends(b, i, j, n) && h <= i && j <= k <= |b|
    ensures Spends(b, h, k, n)
  {
    ParensMono(b, h, i);
    ParensMono(b, j, k);
  }

  lemma {:induction false} AmpsSpend(b: string, i: nat, c: Cmd<Span>)
    requires i <= |b|
    ensures Needs(Amp, Amps(b, i, c).value) == Needs(Amp, c)
    decreases |b| - i
  {
    if Peek(b, i, {'&'}) {
      var t := GetToken(b, Skip(b, i));
      assert t.tok != NUL;
      hide GetToken; hide Peek; hide Skip;
      AmpsSpend(b, t.next, Back(c));
    }
  }

  lemma {:induction false} ArgsSpend(b: string, i: nat, args: seq<Span>, rs: seq<Redirection<Span>>)
    requires i <= |b|
    ensures var r := Args(b, i, args, rs); r.Ok? ==> Needs(Simple, r.value) == 0
    decreases |b| - i
  {
    hide Peek; hide GetToken; hide Skip; hide Redirs; hide Wrap;
    WrapNeeds(rs, Exec(args));
    var t := GetToken(b, Skip(b, i));
    if !Peek(b, i, {'|', ')', '&', ';'}) && t.tok == 'a' && |args| + 1 < MAXARGS && Redirs(b, t.next).Ok? {
      ArgsSpend(b, Redirs(b, t.next).next, args + [t.span], rs + Redirs(b, t.next).value);
    }
  }

  lemma {:induction false} LineSpends(b: string, i: nat)
    requires i <= |b|
    ensures var r := ParseLine(b, i); r.Ok? ==> Spends(b, i, r.next, Needs(Line, r.value))
    decreases |b| - i, 3
  {
    hide ParsePipe; hide Amps; hide Spends; hide Needs;
    PipeSpends(b, i);
    var p := ParsePipe(b, i);
    if p.Ok? {
      var a := Amps(b, p.next, p.value);
      AmpsSpend(b, p.next, p.value);
      Tighter(p.value);
      Tighter(a.value);
      LineStep(b, i, p, a);
      if Peek(b, a.next, {';'}) {
        var j := GetToken(b, Skip(b, a.next)).next;
        assert GetToken(b, Skip(b, a.next)).tok != NUL;
        hide GetToken; hide Peek; hide Skip;
        LineSpends(b, j);
        var d := ParseLine(b, j);
        if d.Ok? {
          ListNeeds(a.value, d.value);
          SpendsBoth(b, i, a.next, j, d.next, Needs(Amp, a.value), Needs(Line, d.value));
        }
      } else {
        LessSpent(b, i, Skip(b, a.next), Needs(Amp, a.value), Needs(Line, a.value));
      }
    }
  }

  // What the pipeline has spent is enough for it with its ampersands.
  lemma LineStep(b: string, i: nat, p: Parsed<Cmd<Span>>, a: Parsed<Cmd<Span>>)
    requires p.Ok? && a.Ok? && Spends(b, i, p.next, Needs(Piped, p.value)) && p.next <= a.next <= |b|
    requires Needs(Amp, a.value) <= Needs(Piped, p.value)
    ensures Spends(b, i, a.next, Needs(Amp, a.value)) && Spends(b, i, Skip(b, a.next), Needs(Amp, a.value))
  {
    SpendsMore(b, i, i, p.next, a.next, Needs(Piped, p.value));
    SpendsMore(b, i, i, p.next, Skip(b, a.next), Needs(Piped, p.value));
  }

  lemma ListNeeds<W>(c: Cmd<W>, d: Cmd<W>)
    ensures Needs(Line, List(c, d)) == Needs(Amp, c) + Needs(Line, d)
    ensures Needs(Piped, Pipe(c, d)) == Needs(Simple, c) + Needs(Piped, d)
  {}

  lemma LessSpent(b: string, i: nat, j: nat, m: nat, n: nat)
    requires Spends(b, i, j, m) && n <= m
    ensures Spends(b, i, j, n)
  {}

  lemma SpendsBoth(b: string, i: nat, j: nat, k: nat, l: nat, m: nat, n: nat)
    requires Spends(b, i, j, m) && j <= k && Spends(b, k, l, n)
    ensures Spends(b, i, l, m + n)
  {
    ParensMono(b, j, k);
  }

  lemma {:induction false} PipeSpends(b: string, i: nat)
    requires i <= |b|
    ensures var r := ParsePipe(b, i); r.Ok? ==> Spends(b, i, r.next, Needs(Piped, r.value))
    decreases |b| - i, 2
  {
    hide ParseExec; hide Spends; hide Needs;
    ExecSpends(b, i);
    var p := ParseExec(b, i);
    if p.Ok? {
      Tighter(p.value);
      if Peek(b, p.next, {'|'}) {
        var j := GetToken(b, Skip(b, p.next)).next;
        assert GetToken(b, Skip(b, p.next)).tok != NUL;
        hide GetToken; hide Peek; hide Skip;
        PipeSpends(b, j);
        var d := ParsePipe(b, j);
        if d.Ok? {
          ListNeeds(p.value, d.value);
          SpendsBoth(b, i, p.next, j, d.next, Needs(Simple, p.value), Needs(Piped, d.value));
        }
      } else {
        SpendsMore(b, i, i, p.next, Skip(b, p.next), Needs(Simple, p.value));
        LessSpent(b, i, Skip(b, p.next), Needs(Simple, p.value), Needs(Piped, p.value));
      }
    }
  }

  lemma {:induction false} ExecSpends(b: string, i: nat)
    requires i <= |b|
    ensures var r := ParseExec(b, i); r.Ok? ==> Spends(b, i, r.next, Needs(Simple, r.value))
    decreases |b| - i, 1
  {
    hide GetToken; hide Peek; hide Redirs; hide Args; hide ParseBlock; hide Needs;
    if Peek(b, i, {'('}) {
      BlockSpends(b, Skip(b, i));
      var r := ParseBlock(b, Skip(b, i));
      if r.Ok? {
        SpendsMore(b, i, Skip(b, i), r.next, r.next, Needs(Simple, r.value));
      }
    } else if Redirs(b, Skip(b, i)).Ok? {
      var rs := Redirs(b, Skip(b, i));
      ArgsSpend(b, rs.next, [], rs.value);
      var r := Args(b, rs.next, [], rs.value);
      if r.Ok? {
        ParensMono(b, i, r.next);
      }
    }
  }

  lemma {:induction false} BlockSpends(b: string, i: nat)
    requires i <= |b|
    ensures var r := ParseBlock(b, i); r.Ok? ==> Spends(b, i, r.next, Needs(Simple, r.value))
    decreases |b| - i, 0
  {
    hide Redirs; hide ParseLine; hide Wrap; hide Needs; hide Spends;
    if Peek(b, i, {'('}) {
      var t := GetToken(b, Skip(b, i));
      assert t.tok != NUL;
      OpenSpends(b, i);
      LineSpends(b, t.next);
      var p := ParseLine(b, t.next);
      if p.Ok? && Peek(b, p.next, {')'}) {
        var u := GetToken(b, Skip(b, p.next)).next;
        hide GetToken; hide Peek; hide Skip;
        var rs := Redirs(b, u);
        if rs.Ok? {
          WrapNeeds(rs.value, p.value);
          Tighter(p.value);
          SpendsBoth(b, i, t.next, t.next, p.next, 1, Needs(Line, p.value));
          SpendsMore(b, i, i, p.next, rs.next, 1 + Needs(Line, p.value));
          LessSpent(b, i, rs.next, 1 + Needs(Line, p.value), Needs(Simple, p.value));
        }
      }
    }
  }

  lemma OpenSpends(b: string, i: nat)
    requires i <= |b| && Peek(b, i, {'('})
    ensures Spends(b, i, GetToken(b, Skip(b, i)).next, 1)
  {
    var q := Skip(b, i);
    SkipTwice(b, i);
    assert b[q] == '(' && Parens(b, q + 1) == Parens(b, q) + 1;
    assert GetToken(b, q).next == Skip(b, q + 1);
    SpendsMore(b, i, q, q + 1, Skip(b, q + 1), 1);
  }

  // No line that parses to a command has fewer parentheses than its print.
  lemma PrintIsMinimal(b: string, c: Cmd<string>)
    requires NoNul(b) && ParseCmd(b).Ok? && Text(b, ParseCmd(b).value) == c
    ensures Total(Print(Line, c)) <= Total(b)
  {
    hide Parens; hide Print; hide Needs; hide Text; hide ParseLine; hide NoNul; hide GoodTree;
    LineSpends(b, 0);
    var r := ParseLine(b, 0);
    NeedsText(b, Line, r.value);
    LineGood(b, 0);
    GoodPrintable(b, r.value);
    PrintTotal(Line, c);
    ParensMono(b, r.next, |b|);
    ParensAtStart(b);
  }

  lemma ParensAtStart(b: string)
    ensures Parens(b, 0) == 0
  {}
}
