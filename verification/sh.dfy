/** The shell's parser: a cursor that every procedure advances over a shared line, the commands it
    builds in memory, and the pass that afterwards writes the NULs into the line. A panic ends the
    process; here it is a result. */
module Sh {
  import opened ShSpec
  import opened ShPrint
  import opened ShTerm

  function Prepend(rs: seq<Redirection<Span>>, r: Parsed<seq<Redirection<Span>>>): Parsed<seq<Redirection<Span>>> {
    match r
    case Panic(m) => Panic(m)
    case Ok(more, j) => Ok(rs + more, j)
  }

  lemma NothingPrepended(r: Parsed<seq<Redirection<Span>>>)
    ensures Prepend([], r) == r
  {
    if r.Ok? {
      assert [] + r.value == r.value;
    }
  }

  // One turn of parseredirs' loop.
  lemma RedirsTurn(b: string, s: nat, rs: seq<Redirection<Span>>)
    requires s <= |b| && Peek(b, s, {'<', '>'}) && Skip(b, s) == s
    ensures var t := GetToken(b, s); var f := GetToken(b, t.next);
      if f.tok != 'a' then Redirs(b, s) == Panic("missing file for redirection")
      else
        var x := if t.tok == '<' then Redirection(f.span, O_RDONLY, 0) else Redirection(f.span, O_WRONLY + O_CREATE, 1);
        Prepend(rs, Redirs(b, s)) == Prepend(rs + [x], Redirs(b, f.next))
  {
    var t := GetToken(b, s);
    var f := GetToken(b, t.next);
    hide GetToken; hide Peek; hide Skip;
    if f.tok == 'a' && Redirs(b, f.next).Ok? {
      var more := Redirs(b, f.next).value;
      var x := if t.tok == '<' then Redirection(f.span, O_RDONLY, 0) else Redirection(f.span, O_WRONLY + O_CREATE, 1);
      assert rs + ([x] + more) == (rs + [x]) + more;
    }
  }

  lemma TokenPositive(b: string, s: nat, toks: set<char>)
    requires s <= |b| && Peek(b, s, toks)
    ensures Skip(b, s) < GetToken(b, Skip(b, s)).next
  {
    SkipTwice(b, s);
  }

  // Reading on with the arguments found so far.
  lemma ArgsSkip(b: string, s: nat, args: seq<Span>, rs: seq<Redirection<Span>>)
    requires s <= |b|
    ensures Args(b, Skip(b, s), args, rs) == Args(b, s, args, rs)
  {
    SkipTwice(b, s);
    hide GetToken; hide Redirs; hide Wrap; hide Skip;
  }

  lemma AmpsSkip(b: string, s: nat, c: Cmd<Span>)
    requires s <= |b|
    ensures Amps(b, Skip(b, s), c) == Amps(b, s, c)
  {
    SkipTwice(b, s);
  }

  // A pointer into the line, or 0.
  datatype Ptr = Null | To(pos: nat)

  // struct execcmd, whose arrays are filled while redirections already point to it.
  class ExecCmd {
    const argv: array<Ptr>
    const eargv: array<Ptr>

    constructor ()
      ensures fresh(argv) && fresh(eargv) && Starts([])
    {
      argv := new Ptr[MAXARGS](_ => Null);
      eargv := new Ptr[MAXARGS](_ => Null);
    }

    ghost predicate Starts(args: seq<Span>)
      reads argv, eargv
    {
      && argv != eargv && |args| <= MAXARGS == argv.Length == eargv.Length
      && forall k | 0 <= k < |args| :: argv[k] == To(args[k].q) && eargv[k] == To(args[k].eq)
    }

    // The arguments, ended by a null pointer.
    ghost predicate Holds(args: seq<Span>)
      reads argv, eargv
    {
      Starts(args) && |args| < MAXARGS && argv[|args|] == Null
    }

    method Add(argc: nat, q: nat, eq: nat, ghost args: seq<Span>)
      requires Starts(args) && argc == |args| < MAXARGS
      modifies argv, eargv
      ensures Starts(args + [Span(q, eq)])
    {
      argv[argc] := To(q);
      eargv[argc] := To(eq);
    }

    method End(argc: nat, ghost args: seq<Span>)
      requires Starts(args) && argc == |args| < MAXARGS
      modifies argv, eargv
      ensures Holds(args)
    {
      argv[argc] := Null;
      eargv[argc] := Null;
    }
  }

  // struct cmd. Only the arrays of an execcmd change once it is made.
  datatype Tree =
    | ExecTree(cmd: ExecCmd)
    | RedirTree(sub: Tree, file: Span, mode: nat, fd: nat)
    | PipeTree(left: Tree, right: Tree)
    | ListTree(left: Tree, right: Tree)
    | BackTree(sub: Tree)

  ghost function Repr(t: Tree): set<object> {
    match t
    case ExecTree(e) => {e, e.argv, e.eargv}
    case RedirTree(x, _, _, _) => Repr(x)
    case PipeTree(l, r) => Repr(l) + Repr(r)
    case ListTree(l, r) => Repr(l) + Repr(r)
    case BackTree(x) => Repr(x)
  }

  // The structure in memory is the command c.
  ghost predicate Denotes(t: Tree, c: Cmd<Span>)
    reads Repr(t)
  {
    match t
    case ExecTree(e) => c.Exec? && e.Holds(c.args)
    case RedirTree(x, f, m, d) => c.Redir? && Denotes(x, c.cmd) && c.file == f && c.mode == m && c.fd == d
    case PipeTree(l, r) => c.Pipe? && Denotes(l, c.left) && Denotes(r, c.right)
    case ListTree(l, r) => c.List? && Denotes(l, c.left) && Denotes(r, c.right)
    case BackTree(x) => c.Back? && Denotes(x, c.cmd)
  }

  // The result r, in memory, is the specified one.
  ghost predicate Gives(r: Parsed<Tree>, p: Parsed<Cmd<Span>>)
    reads if r.Ok? then Repr(r.value) else {}
  {
    match r
    case Panic(m) => p == Panic(m)
    case Ok(t, j) => p.Ok? && j == p.next && Denotes(t, p.value)
  }

  // The redirections rs around t, the first one innermost.
  ghost function Wrapped(rs: seq<Redirection<Span>>, t: Tree): (w: Tree)
    ensures Repr(w) == Repr(t)
  {
    if rs == [] then t
    else
      var r := rs[|rs| - 1];
      RedirTree(Wrapped(rs[..|rs| - 1], t), r.file, r.mode, r.fd)
  }

  lemma {:induction false} WrappedDenotes(rs: seq<Redirection<Span>>, t: Tree, c: Cmd<Span>)
    requires Denotes(t, c)
    ensures Denotes(Wrapped(rs, t), Wrap(rs, c))
  {
    if rs != [] {
      WrappedDenotes(rs[..|rs| - 1], t, c);
    }
  }

  lemma {:induction false} WrappedTwice(rs: seq<Redirection<Span>>, more: seq<Redirection<Span>>, t: Tree)
    ensures Wrapped(more, Wrapped(rs, t)) == Wrapped(rs + more, t)
  {
    if more == [] {
      assert rs + more == rs;
    } else {
      var n := |more| - 1;
      WrappedTwice(rs, more[..n], t);
      assert (rs + more)[..|rs| + n] == rs + more[..n] && (rs + more)[|rs| + n] == more[n];
    }
  }

  class Parser {
    const buf: array<char>
    var es: nat
    var ps: nat

    ghost predicate Valid()
      reads this, buf
    {
      ps <= es < buf.Length && buf[es] == NUL && NoNul(Line())
    }

    // What is to be parsed.
    ghost function Line(): (line: string)
      requires es <= buf.Length
      reads this, buf
    {
      buf[..es]
    }

    // es = s + strlen(s)
    constructor (buf: array<char>)
      requires exists k | 0 <= k < buf.Length :: buf[k] == NUL
      ensures Valid() && this.buf == buf && ps == 0
    {
      this.buf := buf;
      ps := 0;
      var n := 0;
      ghost var k :| 0 <= k < buf.Length && buf[k] == NUL;
      while buf[n] != NUL
        invariant n <= k
        invariant forall j | 0 <= j < n :: buf[j] != NUL
        decreases k - n
      {
        n := n + 1;
      }
      es := n;
    }

    method SkipWhite(s: nat) returns (j: nat)
      requires Valid() && s <= es
      ensures j == Skip(Line(), s)
    {
      j := s;
      while j < es && White(buf[j])
        invariant s <= j <= es && Skip(Line(), j) == Skip(Line(), s)
      {
        j := j + 1;
      }
    }

    method ScanWord(s: nat) returns (j: nat)
      requires Valid() && s <= es
      ensures j == WordEnd(Line(), s)
    {
      j := s;
      while j < es && !White(buf[j]) && !Symbol(buf[j])
        invariant s <= j <= es && WordEnd(Line(), j) == WordEnd(Line(), s)
      {
        j := j + 1;
      }
    }

    method GetToken() returns (tok: char, q: nat, eq: nat)
      requires Valid()
      modifies this`ps
      ensures Valid() && Token(tok, Span(q, eq), ps) == ShSpec.GetToken(Line(), old(ps))
    {
      hide NoNul; hide White; hide Symbol; hide Skip; hide WordEnd;
      var s := SkipWhite(ps);
      q := s;
      assert buf[s] == At(Line(), s);
      tok := buf[s];
      match buf[s] {
        case '\0' =>
        case '|' | '(' | ')' | ';' | '&' | '<' =>
          s := s + 1;
        case '>' =>
          s := s + 1;
          assert buf[s] == At(Line(), s);
          if buf[s] == '>' {
            tok := '+';
            s := s + 1;
          }
        case _ =>
          tok := 'a';
          s := ScanWord(s);
      }
      eq := s;
      ps := SkipWhite(s);
    }

    method Peek(toks: set<char>) returns (r: bool)
      requires Valid()
      modifies this`ps
      ensures Valid() && ps == Skip(Line(), old(ps)) && r == ShSpec.Peek(Line(), old(ps), toks)
    {
      ps := SkipWhite(ps);
      assert buf[ps] == At(Line(), ps);
      r := buf[ps] != NUL && buf[ps] in toks;
    }

    // Wraps the redirections that follow around cmd.
    method ParseRedirs(cmd: Tree) returns (r: Parsed<Tree>)
      requires Valid()
      modifies this`ps
      ensures Valid() && (r.Ok? ==> ps == r.next)
      ensures match Redirs(Line(), old(ps))
              case Panic(m) => r == Panic(m)
              case Ok(rs, j) => r == Ok(Wrapped(rs, cmd), j)
    {
      hide ShSpec.GetToken; hide Redirs; hide ShSpec.Peek; hide Skip; hide NoNul;
      ghost var line, i := Line(), ps;
      ghost var rs: seq<Redirection<Span>> := [];
      var t := cmd;
      NothingPrepended(Redirs(line, i));
      var more := Peek({'<', '>'});
      RedirsSkip(line, i);
      SkipTwice(line, i);
      PeekSkip(line, i, {'<', '>'});
      while more
        invariant Valid() && Line() == line && Skip(line, ps) == ps && more == ShSpec.Peek(line, ps, {'<', '>'})
        invariant Prepend(rs, Redirs(line, ps)) == Redirs(line, i) && t == Wrapped(rs, cmd)
        decreases es - ps
      {
        RedirsTurn(line, ps, rs);
        TokenPositive(line, ps, {'<', '>'});
        var tok, _, _ := GetToken();
        var kind, q, eq := GetToken();
        if kind != 'a' {
          return Panic("missing file for redirection");
        }
        if tok == '<' {
          t := RedirTree(t, Span(q, eq), O_RDONLY, 0);
          rs := rs + [Redirection(Span(q, eq), O_RDONLY, 0)];
        } else {
          t := RedirTree(t, Span(q, eq), O_WRONLY + O_CREATE, 1);
          rs := rs + [Redirection(Span(q, eq), O_WRONLY + O_CREATE, 1)];
        }
        assert rs[..|rs| - 1] + [rs[|rs| - 1]] == rs;
        RedirsSkip(line, ps);
        SkipTwice(line, ps);
        PeekSkip(line, ps, {'<', '>'});
        more := Peek({'<', '>'});
      }
      NoRedirsParse(line, ps);
      assert rs + [] == rs;
      r := Ok(t, ps);
    }

    // The loop over the arguments: cmd's arrays are filled while ret already points to it.
    method ParseArgs(cmd: ExecCmd, redirected: Tree, ghost redirs: seq<Redirection<Span>>) returns (r: Parsed<Tree>)
      requires Valid() && redirected == Wrapped(redirs, ExecTree(cmd)) && cmd.Starts([])
      modifies this`ps, cmd.argv, cmd.eargv
      ensures Valid() && Gives(r, Args(Line(), old(ps), [], redirs)) && (r.Ok? ==> ps == r.next)
      ensures r.Ok? ==> Repr(r.value) == Repr(ExecTree(cmd))
    {
      hide ShSpec.GetToken; hide Redirs; hide ShSpec.Peek; hide Skip; hide NoNul; hide Wrap; hide Args; hide Wrapped;
      hide ExecCmd.Starts;
      ghost var line, i := Line(), ps;
      ghost var args: seq<Span>, rs := [], redirs;
      var ret, argc := redirected, 0;
      ArgsSkip(line, i, [], rs);
      PeekSkip(line, i, {'|', ')', '&', ';'});
      SkipTwice(line, i);
      var stop := Peek({'|', ')', '&', ';'});
      while !stop
        invariant Valid() && Line() == line && argc == |args| < MAXARGS && Skip(line, ps) == ps
        invariant stop == ShSpec.Peek(line, ps, {'|', ')', '&', ';'})
        invariant cmd.Starts(args) && ret == Wrapped(rs, ExecTree(cmd))
        invariant Args(line, ps, args, rs) == Args(line, i, [], redirs)
        decreases es - ps
      {
        ArgsTurn(line, ps, args, rs);
        var tok, q, eq := GetToken();
        if tok == NUL {
          break;
        }
        if tok != 'a' {
          return Panic("syntax");
        }
        cmd.Add(argc, q, eq, args);
        argc := argc + 1;
        args := args + [Span(q, eq)];
        if argc >= MAXARGS {
          return Panic("too many args");
        }
        ghost var more := Redirs(line, ps);
        r := ParseRedirs(ret);
        if r.Panic? {
          return;
        }
        WrappedTwice(rs, more.value, ExecTree(cmd));
        ret := r.value;
        rs := rs + more.value;
        ArgsSkip(line, ps, args, rs);
        PeekSkip(line, ps, {'|', ')', '&', ';'});
        SkipTwice(line, ps);
        stop := Peek({'|', ')', '&', ';'});
      }
      if stop {
        ArgsStop(line, ps, args, rs);
      }
      cmd.End(argc, args);
      WrappedDenotes(rs, ExecTree(cmd), Exec(args));
      r := Ok(ret, ps);
    }

    method ParseExec() returns (r: Parsed<Tree>)
      requires Valid()
      modifies this`ps
      ensures Valid() && Gives(r, ShSpec.ParseExec(Line(), old(ps)))
      ensures r.Ok? ==> ps == r.next && fresh(Repr(r.value))
      decreases es - ps, 1
    {
      hide ShSpec.GetToken; hide Redirs; hide ShSpec.Peek; hide Skip; hide NoNul; hide Wrap; hide Args; hide Wrapped;
      hide ShSpec.ParseBlock;
      var block := Peek({'('});
      if block {
        r := ParseBlock();
        return;
      }
      var cmd := new ExecCmd();
      ghost var i := ps;
      r := ParseRedirs(ExecTree(cmd));
      if r.Panic? {
        return;
      }
      r := ParseArgs(cmd, r.value, Redirs(Line(), i).value);
    }

    method ParseBlock() returns (r: Parsed<Tree>)
      requires Valid()
      modifies this`ps
      ensures Valid() && Gives(r, ShSpec.ParseBlock(Line(), old(ps)))
      ensures r.Ok? ==> ps == r.next && fresh(Repr(r.value))
      decreases es - ps, 0
    {
      hide ShSpec.GetToken; hide Redirs; hide ShSpec.Peek; hide Skip; hide NoNul; hide Wrap; hide ShSpec.ParseLine;
      hide Wrapped; hide Denotes; hide Repr;
      ghost var line, i := Line(), ps;
      var open := Peek({'('});
      if !open {
        return Panic("parseblock");
      }
      TokenPositive(line, i, {'('});
      var _, _, _ := GetToken();
      ghost var p := ShSpec.ParseLine(line, ps);
      var c := ParseLine();
      if c.Panic? {
        return c;
      }
      assert allocated(Repr(c.value));
      var close := Peek({')'});
      if !close {
        return Panic("syntax - missing )");
      }
      var _, _, _ := GetToken();
      ghost var rs := Redirs(line, ps);
      r := ParseRedirs(c.value);
      if r.Ok? {
        WrappedDenotes(rs.value, c.value, p.value);
      }
    }

    method ParsePipe() returns (r: Parsed<Tree>)
      requires Valid()
      modifies this`ps
      ensures Valid() && Gives(r, ShSpec.ParsePipe(Line(), old(ps)))
      ensures r.Ok? ==> ps == r.next && fresh(Repr(r.value))
      decreases es - ps, 2
    {
      hide ShSpec.GetToken; hide ShSpec.Peek; hide Skip; hide NoNul; hide ShSpec.ParseExec;
      var c := ParseExec();
      if c.Panic? {
        return c;
      }
      assert allocated(Repr(c.value));
      ghost var line, j := Line(), ps;
      var pipe := Peek({'|'});
      if pipe {
        TokenPositive(line, j, {'|'});
        var _, _, _ := GetToken();
        var d := ParsePipe();
        if d.Panic? {
          return d;
        }
        return Ok(PipeTree(c.value, d.value), ps);
      }
      r := Ok(c.value, ps);
    }

    // parseline's loop over the ampersands.
    method ParseAmps(cmd: Tree, ghost c0: Cmd<Span>) returns (t: Tree, ghost c: Cmd<Span>)
      requires Valid() && this !in Repr(cmd) && Denotes(cmd, c0)
      modifies this`ps
      ensures Valid() && Ok(c, ps) == Amps(Line(), old(ps), c0) && Skip(Line(), ps) == ps
      ensures Denotes(t, c) && Repr(t) == Repr(cmd) && old(ps) <= ps
    {
      hide ShSpec.GetToken; hide ShSpec.Peek; hide Skip; hide NoNul;
      ghost var line, i := Line(), ps;
      t, c := cmd, c0;
      assert allocated(Repr(cmd));
      AmpsSkip(line, ps, c);
      PeekSkip(line, ps, {'&'});
      SkipTwice(line, ps);
      var more := Peek({'&'});
      while more
        invariant Valid() && Line() == line && i <= ps && Skip(line, ps) == ps && more == ShSpec.Peek(line, ps, {'&'})
        invariant Amps(line, ps, c) == Amps(line, i, c0) && Denotes(t, c) && Repr(t) == Repr(cmd)
        decreases es - ps
      {
        TokenPositive(line, ps, {'&'});
        var _, _, _ := GetToken();
        t, c := BackTree(t), Back(c);
        AmpsSkip(line, ps, c);
        PeekSkip(line, ps, {'&'});
        SkipTwice(line, ps);
        more := Peek({'&'});
      }
    }

    method ParseLine() returns (r: Parsed<Tree>)
      requires Valid()
      modifies this`ps
      ensures Valid() && Gives(r, ShSpec.ParseLine(Line(), old(ps)))
      ensures r.Ok? ==> ps == r.next && fresh(Repr(r.value))
      decreases es - ps, 3
    {
      hide ShSpec.GetToken; hide ShSpec.Peek; hide Skip; hide NoNul; hide ShSpec.ParsePipe; hide Amps;
      ghost var line, i := Line(), ps;
      var p := ParsePipe();
      if p.Panic? {
        return p;
      }
      assert allocated(Repr(p.value));
      var t, c := ParseAmps(p.value, ShSpec.ParsePipe(line, i).value);
      ghost var j := ps;
      var semi := Peek({';'});
      if semi {
        TokenPositive(line, j, {';'});
        var _, _, _ := GetToken();
        var d := ParseLine();
        if d.Panic? {
          return d;
        }
        return Ok(ListTree(t, d.value), ps);
      }
      r := Ok(t, ps);
    }

    // End every word of a command, and of the commands within it, by a NUL in the line.
    method NulTerminate(t: Tree, ghost cmd: Cmd<Span>)
      requires Denotes(t, cmd) && buf !in Repr(t) && forall e | e in Ends(cmd) :: e < buf.Length
      modifies buf
      ensures forall k | 0 <= k < buf.Length :: buf[k] == if k in Ends(cmd) then NUL else old(buf[k])
      decreases t
    {
      assert allocated(Repr(t));
      match t {
        case ExecTree(e) =>
          ghost var args := cmd.args;
          var i := 0;
          while e.argv[i] != Null
            invariant i <= |args| && e.Holds(args)
            invariant forall k | 0 <= k < buf.Length :: buf[k] == if k in EndsOf(args[..i]) then NUL else old(buf[k])
            decreases |args| - i
          {
            assert args[i].eq in Ends(cmd);
            buf[e.eargv[i].pos] := NUL;
            EndsSnoc(args, i);
            i := i + 1;
          }
          assert args[..i] == args;
        case RedirTree(x, f, _, _) =>
          assert f.eq in Ends(cmd) && Ends(cmd.cmd) <= Ends(cmd);
          NulTerminate(x, cmd.cmd);
          buf[f.eq] := NUL;
        case PipeTree(l, r) =>
          assert Ends(cmd.left) <= Ends(cmd) && Ends(cmd.right) <= Ends(cmd);
          NulTerminate(l, cmd.left);
          NulTerminate(r, cmd.right);
        case ListTree(l, r) =>
          assert Ends(cmd.left) <= Ends(cmd) && Ends(cmd.right) <= Ends(cmd);
          NulTerminate(l, cmd.left);
          NulTerminate(r, cmd.right);
        case BackTree(x) =>
          assert Ends(cmd.cmd) <= Ends(cmd);
          NulTerminate(x, cmd.cmd);
      }
    }

    // The parse of the line; afterwards the pointers of a command are to its words as C strings.
    method ParseCmd() returns (r: Parsed<Tree>)
      requires Valid() && ps == 0
      modifies this`ps, buf
      ensures Gives(r, ShSpec.ParseCmd(old(Line())))
      ensures r.Ok? ==>
                var c := ShSpec.ParseCmd(old(Line())).value;
                Printable(Text(old(Line()), c)) && Strings(buf[..es + 1], c) == Text(old(Line()), c)
    {
      hide ShSpec.Peek; hide Skip; hide NoNul; hide ShSpec.ParseLine; hide Printable; hide GoodTree; hide Terminated;
      hide Denotes; hide Repr;
      ghost var line := Line();
      r := ParseLine();
      if r.Panic? {
        return;
      }
      assert allocated(Repr(r.value));
      var _ := Peek({});
      if ps != es {
        return Panic("syntax");
      }
      ghost var c := ShSpec.ParseLine(line, 0).value;
      LineGood(line, 0);
      GoodPrintable(line, c);
      EndsInside(line, c);
      NulTerminate(r.value, c);
      BufferTerminated(line, old(buf[..]), buf[..], es, Ends(c));
      assert buf[..][..es + 1] == buf[..es + 1];
      NulTerminationKeepsWords(line, buf[..es + 1], c);
      r := Ok(r.value, es);
    }
  }

  lemma PeekSkip(b: string, s: nat, toks: set<char>)
    requires s <= |b|
    ensures ShSpec.Peek(b, Skip(b, s), toks) == ShSpec.Peek(b, s, toks)
  {
    SkipTwice(b, s);
  }

  // What one turn of the argument loop makes of the rest.
  lemma ArgsTurn(b: string, s: nat, args: seq<Span>, rs: seq<Redirection<Span>>)
    requires s <= |b| && Skip(b, s) == s && !ShSpec.Peek(b, s, {'|', ')', '&', ';'})
    ensures var t := ShSpec.GetToken(b, s); var a := Args(b, s, args, rs);
      && (t.tok == NUL ==> a == Ok(Wrap(rs, Exec(args)), t.next))
      && (t.tok != NUL ==> s < t.next)
      && (t.tok != NUL && t.tok != 'a' ==> a == Panic("syntax"))
      && (t.tok == 'a' && |args| + 1 >= MAXARGS ==> a == Panic("too many args"))
      && (t.tok == 'a' && |args| + 1 < MAXARGS ==>
            var q := Redirs(b, t.next);
            a == if q.Panic? then Panic(q.message) else Args(b, q.next, args + [t.span], rs + q.value))
  {
    hide ShSpec.GetToken; hide Redirs; hide ShSpec.Peek; hide Skip; hide Wrap;
  }

  lemma ArgsStop(b: string, s: nat, args: seq<Span>, rs: seq<Redirection<Span>>)
    requires s <= |b| && Skip(b, s) == s && ShSpec.Peek(b, s, {'|', ')', '&', ';'})
    ensures Args(b, s, args, rs) == Ok(Wrap(rs, Exec(args)), s)
  {
    hide ShSpec.GetToken; hide Redirs; hide ShSpec.Peek; hide Skip; hide Wrap;
  }

  lemma EndsSnoc(args: seq<Span>, i: nat)
    requires i < |args|
    ensures EndsOf(args[..i + 1]) == EndsOf(args[..i]) + {args[i].eq}
  {
    assert forall k | 0 <= k < i :: args[..i + 1][k].eq == args[..i][k].eq;
    assert args[..i + 1][i] == args[i];
    forall e | e in EndsOf(args[..i]) + {args[i].eq}
      ensures e in EndsOf(args[..i + 1])
    {
      if e in EndsOf(args[..i]) {
        var k :| 0 <= k < i && args[..i][k].eq == e;
        assert args[..i + 1][k].eq == e;
      }
    }
  }

  lemma {:induction false} EndsInside(b: string, c: Cmd<Span>)
    requires GoodTree(b, c)
    ensures forall e | e in Ends(c) :: e <= |b|
  {
    match c
    case Exec(args) =>
    case Redir(x, f, _, _) => EndsInside(b, x);
    case Pipe(l, r) => EndsInside(b, l); EndsInside(b, r);
    case List(l, r) => EndsInside(b, l); EndsInside(b, r);
    case Back(x) => EndsInside(b, x);
  }

  lemma BufferTerminated(line: string, before: string, after: string, es: nat, ends: set<nat>)
    requires es < |before| == |after| && before[es] == NUL && line == before[..es]
    requires forall k | 0 <= k < |after| :: after[k] == if k in ends then NUL else before[k]
    ensures Terminated(line, after[..es + 1], ends)
  {}
}
