/** The parser accepts exactly the lines of the grammar and gives each its meaning. */
module ShAccepts {
  import opened ShSpec
  import opened ShPrint
  import opened ShTerm
  import opened ShGrammar

  // ---------------------------------------------------------------- tokens

  lemma {:induction false} GapSkips(b: string, i: nat, j: nat)
    requires Gap(b, i, j)
    ensures Skip(b, i) == Skip(b, j)
    decreases j - i
  {
    if i < j {
      assert White(b[i]);
      GapSkips(b, i + 1, j);
    }
  }

  lemma {:induction false} SkipGap(b: string, i: nat)
    requires i <= |b|
    ensures Gap(b, i, Skip(b, i))
    decreases |b| - i
  {
    if i < |b| && White(b[i]) {
      SkipGap(b, i + 1);
    }
  }

  lemma WordReads(b: string, i: nat, w: Span)
    requires NoNul(b) && WordIn(b, i, w)
    ensures Skip(b, i) == w.q && GetToken(b, i) == Token('a', w, Skip(b, w.eq))
    ensures w.q < |b| && WordChar(b[w.q])
  {
    GapSkips(b, i, w.q);
    assert Plain(b[w.q]) && Skip(b, w.q) == w.q;
    assert WordEnd(b, w.q) == w.eq;
  }

  lemma WordSound(b: string, i: nat)
    requires NoNul(b) && i <= |b| && GetToken(b, i).tok == 'a'
    ensures WordIn(b, i, GetToken(b, i).span) && GetToken(b, i).next == Skip(b, GetToken(b, i).span.eq)
  {
    SkipGap(b, i);
    var q := Skip(b, i);
    assert q < |b| && WordEnd(b, q) > q;
  }

  lemma SignReads(b: string, i: nat, k: nat, c: char)
    requires NoNul(b) && SignIn(b, i, k, c) && c in {'|', '(', ')', ';', '&'}
    ensures Skip(b, i) == k && GetToken(b, i).tok == c && GetToken(b, i).next == Skip(b, k + 1)
    ensures forall toks: set<char> :: Peek(b, i, toks) <==> c in toks
  {
    GapSkips(b, i, k);
  }

  lemma SignSound(b: string, i: nat, c: char)
    requires NoNul(b) && i <= |b| && Peek(b, i, {c}) && c in {'|', '(', ')', ';', '&'}
    ensures SignIn(b, i, Skip(b, i), c) && GetToken(b, Skip(b, i)).next == Skip(b, Skip(b, i) + 1)
  {
    SkipGap(b, i);
    SkipTwice(b, i);
  }

  lemma SignFound(b: string, i: nat, c: char) returns (k: nat)
    requires NoNul(b) && i <= |b| && Peek(b, i, {c}) && c in {'|', '(', ')', ';', '&'}
    ensures SignIn(b, i, k, c) && i <= k < |b| && k == Skip(b, i)
  {
    k := Skip(b, i);
    SignSound(b, i, c);
  }

  function Meaning(b: string, r: Arrow): Redirection<Span> {
    if r.at < |b| && b[r.at] == '<' then Redirection(r.file, O_RDONLY, 0)
    else Redirection(r.file, O_WRONLY + O_CREATE, 1)
  }

  function Meanings(b: string, rs: seq<Arrow>): (m: seq<Redirection<Span>>)
    ensures |m| == |rs|
  {
    if rs == [] then [] else [Meaning(b, rs[0])] + Meanings(b, rs[1..])
  }

  lemma ArrowReads(b: string, i: nat, r: Arrow)
    requires NoNul(b) && ArrowIn(b, i, r)
    ensures Skip(b, i) == r.at && Peek(b, i, {'<', '>'})
    ensures var t := GetToken(b, r.at);
      (t.tok == '<' <==> b[r.at] == '<') && GetToken(b, t.next) == Token('a', r.file, Skip(b, r.file.eq))
  {
    GapSkips(b, i, r.at);
    var e := OpEnd(b, r.at);
    WordReads(b, e, r.file);
    SkipTwice(b, e);
    assert GetToken(b, r.at).next == Skip(b, e);
    WordFrom(b, e, r.file);
  }

  lemma WordFrom(b: string, i: nat, w: Span)
    requires NoNul(b) && WordIn(b, i, w)
    ensures GetToken(b, Skip(b, i)) == GetToken(b, i)
  {
    SkipTwice(b, i);
  }

  lemma ArrowSound(b: string, i: nat) returns (r: Arrow)
    requires NoNul(b) && i <= |b| && Peek(b, i, {'<', '>'})
    requires GetToken(b, GetToken(b, Skip(b, i)).next).tok == 'a'
    ensures ArrowIn(b, i, r) && r.at == Skip(b, i) && r.file == GetToken(b, GetToken(b, r.at).next).span
  {
    SkipGap(b, i);
    SkipTwice(b, i);
    var k := Skip(b, i);
    var e := OpEnd(b, k);
    assert GetToken(b, k).next == Skip(b, e);
    var w := GetToken(b, Skip(b, e)).span;
    WordSound(b, Skip(b, e));
    SkipGap(b, e);
    r := Arrow(k, w);
  }

  // ---------------------------------------------------------------- bounds and meanings

  lemma {:induction false} ArrowsBound(b: string, i: nat, rs: seq<Arrow>)
    requires i <= |b| && ArrowsIn(b, i, rs)
    ensures i <= ArrowsEnd(rs, i) <= |b|
    decreases |rs|
  {
    if rs != [] {
      ArrowsBound(b, rs[0].file.eq, rs[1..]);
    }
  }

  lemma {:induction false} ItemsBound(b: string, i: nat, items: seq<Item>)
    requires i <= |b| && ItemsIn(b, i, items)
    ensures i <= ItemsEnd(items, i) <= |b|
    decreases |items|
  {
    if items != [] {
      ItemsBound(b, if items[0].Arg? then items[0].w.eq else items[0].r.file.eq, items[1..]);
    }
  }

  lemma {:induction false} WrapCons(r: Redirection<Span>, rs: seq<Redirection<Span>>, c: Cmd<Span>)
    ensures Wrap([r] + rs, c) == Wrap(rs, Redir(c, r.file, r.mode, r.fd))
  {
    if rs == [] {
      assert [r] + rs == [r] && Wrap([r][..0], c) == c;
    } else {
      var n := |rs| - 1;
      WrapCons(r, rs[..n], c);
      assert ([r] + rs)[..n + 1] == [r] + rs[..n] && ([r] + rs)[n + 1] == rs[n];
    }
  }

  lemma {:induction false} AroundIs(b: string, rs: seq<Arrow>, c: Cmd<Span>)
    ensures Around(b, rs, c) == Wrap(Meanings(b, rs), c)
    decreases |rs|
  {
    if rs != [] {
      var m := Meaning(b, rs[0]);
      AroundIs(b, rs[1..], Redir(c, m.file, m.mode, m.fd));
      WrapCons(m, Meanings(b, rs[1..]), c);
    }
  }

  // ---------------------------------------------------------------- every line of the grammar is accepted

  lemma NotFollowed(b: string, j: nat, toks: set<char>, other: set<char>)
    requires j <= |b| && NextIn(b, j, toks) && toks !! other
    ensures !Peek(b, j, other)
  {}

  lemma RedirsTaken(b: string, i: nat, r: Arrow)
    requires NoNul(b) && i <= |b| && ArrowIn(b, i, r)
    ensures var q := Redirs(b, r.file.eq);
      Redirs(b, i) == if q.Ok? then Ok([Meaning(b, r)] + q.value, q.next) else q
  {
    ArrowReads(b, i, r);
    RedirsSkip(b, r.file.eq);
    hide GetToken; hide Skip; hide Peek;
  }

  lemma {:induction false} ArrowsComplete(b: string, i: nat, rs: seq<Arrow>)
    requires NoNul(b) && i <= |b| && ArrowsIn(b, i, rs)
    requires ArrowsEnd(rs, i) <= |b| && NextIn(b, ArrowsEnd(rs, i), {'|', ')', '&', ';'})
    ensures Redirs(b, i) == Ok(Meanings(b, rs), Skip(b, ArrowsEnd(rs, i)))
    decreases |rs|
  {
    hide GetToken; hide Skip; hide NextIn; hide Peek;
    if rs == [] {
      NotFollowed(b, i, {'|', ')', '&', ';'}, {'<', '>'});
      assert Redirs(b, i) == Ok([], Skip(b, i));
    } else {
      RedirsTaken(b, i, rs[0]);
      ArrowsComplete(b, rs[0].file.eq, rs[1..]);
    }
  }

  lemma WordNoSign(b: string, i: nat, w: Span)
    requires NoNul(b) && WordIn(b, i, w)
    ensures !Peek(b, i, {'<', '>'}) && !Peek(b, i, {'|', ')', '&', ';'}) && !Peek(b, i, {'('})
  {
    WordReads(b, i, w);
  }

  lemma ArgTaken(b: string, i: nat, w: Span, args: seq<Span>, rs: seq<Redirection<Span>>)
    requires NoNul(b) && WordIn(b, i, w) && |args| < 9
    ensures Redirs(b, i) == Ok([], Skip(b, i))
    ensures var q := Redirs(b, w.eq);
      q.Ok? ==> Args(b, Skip(b, i), args, rs) == Args(b, q.next, args + [w], rs + q.value)
  {
    WordNoSign(b, i, w);
    WordReads(b, i, w);
    SkipTwice(b, i);
    WordFrom(b, i, w);
    RedirsSkip(b, w.eq);
    assert Peek(b, Skip(b, i), {'|', ')', '&', ';'}) == Peek(b, i, {'|', ')', '&', ';'});
    hide GetToken; hide Skip; hide Peek;
  }

  // What reading on at i comes to, with the words args and the redirections rs read already.
  predicate ReadsOn(b: string, i: nat, args: seq<Span>, rs: seq<Redirection<Span>>, r: Parsed<Cmd<Span>>)
    requires i <= |b|
  {
    var q := Redirs(b, i);
    q.Ok? && Args(b, q.next, args, rs + q.value) == r
  }

  lemma ArrowBound(b: string, i: nat, x: Arrow)
    requires ArrowIn(b, i, x)
    ensures i < x.file.eq <= |b|
  {}

  lemma ReadsArrow(b: string, i: nat, x: Arrow, args: seq<Span>, rs: seq<Redirection<Span>>, r: Parsed<Cmd<Span>>)
    requires NoNul(b) && i <= |b| && ArrowIn(b, i, x)
    requires ReadsOn(b, x.file.eq, args, rs + [Meaning(b, x)], r)
    ensures ReadsOn(b, i, args, rs, r)
  {
    hide Redirs; hide Args; hide ArrowIn; hide NoNul; hide Meaning;
    RedirsTaken(b, i, x);
    ArrowBound(b, i, x);
    var q := Redirs(b, x.file.eq);
    assert rs + ([Meaning(b, x)] + q.value) == (rs + [Meaning(b, x)]) + q.value;
  }

  lemma ReadsArg(b: string, i: nat, w: Span, args: seq<Span>, rs: seq<Redirection<Span>>, r: Parsed<Cmd<Span>>)
    requires NoNul(b) && i <= |b| && WordIn(b, i, w) && |args| < 9
    requires ReadsOn(b, w.eq, args + [w], rs, r)
    ensures ReadsOn(b, i, args, rs, r)
  {
    ArgTaken(b, i, w, args, rs);
    hide Redirs; hide Args; hide WordIn; hide Skip;
    assert rs + [] == rs;
  }

  function Result(b: string, i: nat, items: seq<Item>, args: seq<Span>, rs: seq<Redirection<Span>>): Parsed<Cmd<Span>>
    requires ItemsEnd(items, i) <= |b|
  {
    Ok(Wrap(rs + Meanings(b, ArrowsOf(items)), Exec(args + ArgsOf(items))), Skip(b, ItemsEnd(items, i)))
  }

  lemma ResultArrow(b: string, i: nat, items: seq<Item>, args: seq<Span>, rs: seq<Redirection<Span>>)
    requires items != [] && items[0].To? && ItemsEnd(items, i) <= |b|
    ensures var x := items[0].r;
      && ItemsEnd(items[1..], x.file.eq) == ItemsEnd(items, i)
      && Result(b, x.file.eq, items[1..], args, rs + [Meaning(b, x)]) == Result(b, i, items, args, rs)
  {
    hide Wrap; hide Skip; hide Meaning;
    var x, rest := items[0].r, items[1..];
    assert ArrowsOf(items) == [x] + ArrowsOf(rest) && ([x] + ArrowsOf(rest))[1..] == ArrowsOf(rest);
    assert rs + ([Meaning(b, x)] + Meanings(b, ArrowsOf(rest))) ==
           (rs + [Meaning(b, x)]) + Meanings(b, ArrowsOf(rest));
    assert ArgsOf(items) == ArgsOf(rest);
  }

  lemma ResultArg(b: string, i: nat, items: seq<Item>, args: seq<Span>, rs: seq<Redirection<Span>>)
    requires items != [] && items[0].Arg? && ItemsEnd(items, i) <= |b|
    ensures var w := items[0].w;
      && ItemsEnd(items[1..], w.eq) == ItemsEnd(items, i)
      && Result(b, w.eq, items[1..], args + [w], rs) == Result(b, i, items, args, rs)
  {
    hide Wrap; hide Skip; hide Meanings;
    var w, rest := items[0].w, items[1..];
    assert (args + [w]) + ArgsOf(rest) == args + ([w] + ArgsOf(rest));
    assert ArrowsOf(items) == ArrowsOf(rest);
  }

  lemma {:induction false} ItemsComplete(b: string, i: nat, items: seq<Item>, args: seq<Span>,
                                         rs: seq<Redirection<Span>>)
    requires NoNul(b) && i <= |b| && ItemsIn(b, i, items) && |args| + |ArgsOf(items)| <= 9
    requires ItemsEnd(items, i) <= |b| && NextIn(b, ItemsEnd(items, i), {'|', ')', '&', ';'})
    ensures ReadsOn(b, i, args, rs, Result(b, i, items, args, rs))
    decreases |items|
  {
    hide NextIn; hide Args; hide Wrap; hide Redirs; hide ReadsOn; hide Skip; hide Gap;
    if items == [] {
      NothingFollows(b, i, args, rs);
      assert args + [] == args && rs + [] == rs;
    } else if items[0].To? {
      var x := items[0].r;
      ResultArrow(b, i, items, args, rs);
      hide Result;
      ItemsComplete(b, x.file.eq, items[1..], args, rs + [Meaning(b, x)]);
      ReadsArrow(b, i, x, args, rs, Result(b, i, items, args, rs));
    } else {
      var w := items[0].w;
      ResultArg(b, i, items, args, rs);
      hide Result;
      ItemsComplete(b, w.eq, items[1..], args + [w], rs);
      ReadsArg(b, i, w, args, rs, Result(b, i, items, args, rs));
    }
  }

  lemma NothingFollows(b: string, i: nat, args: seq<Span>, rs: seq<Redirection<Span>>)
    requires NoNul(b) && i <= |b| && NextIn(b, i, {'|', ')', '&', ';'})
    ensures ReadsOn(b, i, args, rs, Ok(Wrap(rs, Exec(args)), Skip(b, i)))
  {
    NotFollowed(b, i, {'|', ')', '&', ';'}, {'<', '>'});
    SkipTwice(b, i);
    assert rs + [] == rs;
    hide Wrap;
  }

  // What a simple command begins with: nothing, a word or an arrow.
  lemma NoParenthesis(b: string, i: nat, items: seq<Item>)
    requires NoNul(b) && i <= |b| && ItemsIn(b, i, items)
    requires ItemsEnd(items, i) <= |b| && NextIn(b, ItemsEnd(items, i), {'|', ')', '&', ';'})
    ensures !Peek(b, i, {'('})
  {
    if items == [] {
      NotFollowed(b, i, {'|', ')', '&', ';'}, {'('});
    } else if items[0].To? {
      ArrowReads(b, i, items[0].r);
    } else {
      WordReads(b, i, items[0].w);
    }
  }

  lemma SimpleComplete(b: string, i: nat, items: seq<Item>)
    requires NoNul(b) && i <= |b| && ItemsIn(b, i, items) && |ArgsOf(items)| <= 9
    requires ItemsEnd(items, i) <= |b| && NextIn(b, ItemsEnd(items, i), {'|', ')', '&', ';'})
    ensures ParseExec(b, i) == Ok(NodeMeans(b, Node.Simple(items)), Skip(b, ItemsEnd(items, i)))
  {
    NoParenthesis(b, i, items);
    ItemsComplete(b, i, items, [], []);
    RedirsSkip(b, i);
    AroundIs(b, ArrowsOf(items), Exec(ArgsOf(items)));
    assert [] + ArgsOf(items) == ArgsOf(items) && [] + Meanings(b, ArrowsOf(items)) == Meanings(b, ArrowsOf(items));
    assert Redirs(b, i).Ok? && [] + Redirs(b, i).value == Redirs(b, i).value;
    hide Peek; hide Skip; hide Redirs; hide Args; hide Wrap; hide NextIn; hide ItemsIn;
  }

  lemma {:induction false} AmpsComplete(b: string, i: nat, amps: seq<nat>, c: Cmd<Span>)
    requires NoNul(b) && i <= |b| && AmpsIn(b, i, amps)
    requires AmpsEnd(amps, i) <= |b| && NextIn(b, AmpsEnd(amps, i), {')', ';'})
    ensures Amps(b, i, c) == Ok(Backed(|amps|, c), Skip(b, AmpsEnd(amps, i)))
    decreases |amps|
  {
    hide Skip; hide GetToken; hide Peek; hide NextIn; hide SignIn; hide NoNul;
    if amps == [] {
      NotFollowed(b, i, {')', ';'}, {'&'});
    } else {
      SignTaken(b, i, amps[0], '&');
      AmpsSkips(b, amps[0] + 1, Back(c));
      AmpsComplete(b, amps[0] + 1, amps[1..], Back(c));
    }
  }

  lemma AmpsSkips(b: string, i: nat, c: Cmd<Span>)
    requires i <= |b|
    ensures Amps(b, Skip(b, i), c) == Amps(b, i, c)
  {
    SkipTwice(b, i);
  }

  lemma SignAgain(b: string, i: nat, k: nat, c: char)
    requires NoNul(b) && SignIn(b, i, k, c) && c in {'|', '(', ')', ';', '&'}
    ensures GetToken(b, k).next == Skip(b, k + 1)
  {
    assert SignIn(b, k, k, c);
    SignReads(b, k, k, c);
  }

  lemma {:induction false} AmpsBound(b: string, i: nat, amps: seq<nat>)
    requires i <= |b| && AmpsIn(b, i, amps)
    ensures i <= AmpsEnd(amps, i) <= |b|
    decreases |amps|
  {
    if amps != [] {
      AmpsBound(b, amps[0] + 1, amps[1..]);
    }
  }

  lemma PipeLink(b: string, i: nat, c: Cmd<Span>, j: nat, k: nat)
    requires NoNul(b) && i <= |b| && j <= |b| && SignIn(b, j, k, '|') && ParseExec(b, i) == Ok(c, Skip(b, j))
    ensures ParsePipe(b, i) == match ParsePipe(b, Skip(b, k + 1))
                               case Panic(m) => Panic(m)
                               case Ok(d, e) => Ok(Pipe(c, d), e)
  {
    SignReads(b, j, k, '|');
    SignAgain(b, j, k, '|');
    SkipTwice(b, j);
    hide ParseExec; hide GetToken;
  }

  lemma PipeStops(b: string, i: nat, c: Cmd<Span>, j: nat)
    requires i <= |b| && j <= |b| && ParseExec(b, i) == Ok(c, Skip(b, j)) && NextIn(b, j, {')', '&', ';'})
    ensures ParsePipe(b, i) == Ok(c, Skip(b, j))
  {
    NotFollowed(b, j, {')', '&', ';'}, {'|'});
    SkipTwice(b, j);
    hide ParseExec;
  }

  // Where a procedure starts, white space does not matter.
  lemma {:induction false} StartsAnywhere(b: string, i: nat)
    requires i <= |b|
    ensures ParseExec(b, Skip(b, i)) == ParseExec(b, i) && ParsePipe(b, Skip(b, i)) == ParsePipe(b, i)
    ensures ParseLine(b, Skip(b, i)) == ParseLine(b, i)
  {
    SkipTwice(b, i);
    assert Peek(b, Skip(b, i), {'('}) == Peek(b, i, {'('});
    hide Peek; hide Skip; hide Redirs; hide Args; hide ParseBlock; hide GetToken;
    assert ParseExec(b, Skip(b, i)) == ParseExec(b, i);
    hide ParseExec;
    assert ParsePipe(b, Skip(b, i)) == ParsePipe(b, i);
    hide ParsePipe;
  }

  lemma LineAnywhere(b: string, i: nat)
    requires i <= |b|
    ensures Skip(b, i) <= |b| && ParseLine(b, Skip(b, i)) == ParseLine(b, i)
  {
    StartsAnywhere(b, i);
  }

  lemma BlockReads(b: string, i: nat, open: nat, c: Cmd<Span>, j: nat, close: nat, arrows: seq<Arrow>)
    requires NoNul(b) && i <= |b| && SignIn(b, i, open, '(') && j <= |b| && SignIn(b, j, close, ')')
    requires ParseLine(b, Skip(b, open + 1)) == Ok(c, Skip(b, j))
    requires ArrowsIn(b, close + 1, arrows) && ArrowsEnd(arrows, close + 1) <= |b|
    requires NextIn(b, ArrowsEnd(arrows, close + 1), {'|', ')', '&', ';'})
    ensures ParseExec(b, i) == Ok(Around(b, arrows, c), Skip(b, ArrowsEnd(arrows, close + 1)))
  {
    hide ParseLine; hide GetToken; hide Redirs; hide Wrap; hide Peek; hide NextIn; hide ArrowsIn; hide SignIn;
    hide NoNul; hide Around; hide ParseExec; hide Skip; hide ArrowsEnd;
    SignTaken(b, i, open, '(');
    SignTaken(b, j, close, ')');
    ExecIsBlock(b, i);
    ArrowsComplete(b, close + 1, arrows);
    RedirsSkip(b, close + 1);
    AroundIs(b, arrows, c);
  }

  lemma SignTaken(b: string, i: nat, k: nat, c: char)
    requires NoNul(b) && SignIn(b, i, k, c) && c in {'|', '(', ')', ';', '&'}
    ensures i <= k < |b| && Skip(b, i) == k == Skip(b, k) && Peek(b, i, {c}) && Peek(b, k, {c})
    ensures Skip(b, k + 1) <= |b| && GetToken(b, k).next == Skip(b, k + 1)
  {
    SignReads(b, i, k, c);
    SignAgain(b, i, k, c);
    SkipTwice(b, i);
  }

  lemma LineStops(b: string, i: nat, c: Cmd<Span>, j: nat, amps: seq<nat>)
    requires NoNul(b) && i <= |b| && j <= |b| && ParsePipe(b, i) == Ok(c, Skip(b, j)) && AmpsIn(b, j, amps)
    requires AmpsEnd(amps, j) <= |b| && NextIn(b, AmpsEnd(amps, j), {')'})
    ensures ParseLine(b, i) == Ok(Backed(|amps|, c), Skip(b, AmpsEnd(amps, j)))
  {
    AmpsComplete(b, j, amps, c);
    AmpsSkips(b, j, c);
    var e := AmpsEnd(amps, j);
    NotFollowed(b, e, {')'}, {';'});
    SkipTwice(b, e);
    hide ParsePipe; hide Amps; hide GetToken;
  }

  lemma LineLink(b: string, i: nat, c: Cmd<Span>, j: nat, amps: seq<nat>, semi: nat)
    requires NoNul(b) && i <= |b| && j <= |b| && ParsePipe(b, i) == Ok(c, Skip(b, j)) && AmpsIn(b, j, amps)
    requires AmpsEnd(amps, j) <= |b| && SignIn(b, AmpsEnd(amps, j), semi, ';')
    ensures ParseLine(b, i) == match ParseLine(b, Skip(b, semi + 1))
                               case Panic(m) => Panic(m)
                               case Ok(d, e) => Ok(List(Backed(|amps|, c), d), e)
  {
    var e := AmpsEnd(amps, j);
    SignReads(b, e, semi, ';');
    SignAgain(b, e, semi, ';');
    AmpsComplete(b, j, amps, c);
    AmpsSkips(b, j, c);
    SkipTwice(b, e);
    hide ParsePipe; hide Amps; hide GetToken; hide AmpsIn;
  }

  // Where a construct ends is within the line.
  lemma {:induction false} NodeBound(b: string, i: nat, n: Node)
    requires i <= |b| && NodeIn(b, i, n)
    ensures i <= NodeEnd(n, i) <= |b|
    decreases n
  {
    match n
    case Simple(items) => ItemsBound(b, i, items);
    case Block(open, line, close, arrows) =>
      LineBound(b, open + 1, line);
      ArrowsBound(b, close + 1, arrows);
  }

  lemma {:induction false} PipelineBound(b: string, i: nat, p: Pipeline)
    requires i <= |b| && PipelineIn(b, i, p)
    ensures i <= PipelineEnd(p, i) <= |b|
    decreases p
  {
    NodeBound(b, i, p.n);
    if p.Bar? {
      PipelineBound(b, p.bar + 1, p.rest);
    }
  }

  lemma {:induction false} LineBound(b: string, i: nat, l: Line)
    requires i <= |b| && LineIn(b, i, l)
    ensures i <= LineEnd(l, i) <= |b|
    ensures i <= PipelineEnd(l.p, i) <= AmpsEnd(l.amps, PipelineEnd(l.p, i)) <= |b|
    decreases l
  {
    PipelineBound(b, i, l.p);
    AmpsBound(b, PipelineEnd(l.p, i), l.amps);
    if l.Then? {
      LineBound(b, l.semi + 1, l.rest);
    }
  }

  lemma SignNext(b: string, i: nat, k: nat, c: char, toks: set<char>)
    requires NoNul(b) && i <= |b| && SignIn(b, i, k, c) && c in toks && c in {'|', '(', ')', ';', '&'}
    ensures NextIn(b, i, toks)
  {
    SignReads(b, i, k, c);
  }

  lemma {:induction false} NodeComplete(b: string, i: nat, n: Node)
    requires NoNul(b) && i <= |b| && NodeIn(b, i, n)
    requires NodeEnd(n, i) <= |b| && NextIn(b, NodeEnd(n, i), {'|', ')', '&', ';'})
    ensures ParseExec(b, i) == Ok(NodeMeans(b, n), Skip(b, NodeEnd(n, i)))
    decreases n
  {
    hide ParseExec; hide ParseLine; hide NextIn; hide Skip; hide SignIn; hide Around; hide ItemsIn; hide ArrowsIn;
    match n
    case Simple(items) => SimpleComplete(b, i, items);
    case Block(open, line, close, arrows) =>
      SignBound(b, i, open, '(');
      LineBound(b, open + 1, line);
      SignNext(b, LineEnd(line, open + 1), close, ')', {')'});
      LineComplete(b, open + 1, line);
      LineAnywhere(b, open + 1);
      BlockReads(b, i, open, LineMeans(b, line), LineEnd(line, open + 1), close, arrows);
  }

  lemma SignBound(b: string, i: nat, k: nat, c: char)
    requires SignIn(b, i, k, c)
    ensures i <= k < |b|
  {}

  lemma {:induction false} PipelineComplete(b: string, i: nat, p: Pipeline)
    requires NoNul(b) && i <= |b| && PipelineIn(b, i, p)
    requires PipelineEnd(p, i) <= |b| && NextIn(b, PipelineEnd(p, i), {')', '&', ';'})
    ensures ParsePipe(b, i) == Ok(PipelineMeans(b, p), Skip(b, PipelineEnd(p, i)))
    decreases p
  {
    hide ParseExec; hide ParsePipe; hide NextIn; hide Skip; hide SignIn; hide NodeIn;
    NodeBound(b, i, p.n);
    var j := NodeEnd(p.n, i);
    match p
    case One(n) =>
      NextMore(b, j);
      NodeComplete(b, i, n);
      PipeStops(b, i, NodeMeans(b, n), j);
    case Bar(n, bar, rest) =>
      SignBound(b, j, bar, '|');
      SignNext(b, j, bar, '|', {'|', ')', '&', ';'});
      NodeComplete(b, i, n);
      PipelineBound(b, bar + 1, rest);
      PipelineComplete(b, bar + 1, rest);
      StartsAnywhere(b, bar + 1);
      PipeLink(b, i, NodeMeans(b, n), j, bar);
  }

  lemma NextMore(b: string, j: nat)
    requires j <= |b| && NextIn(b, j, {')', '&', ';'})
    ensures NextIn(b, j, {'|', ')', '&', ';'})
  {}

  lemma {:induction false} LineComplete(b: string, i: nat, l: Line)
    requires NoNul(b) && i <= |b| && LineIn(b, i, l)
    requires LineEnd(l, i) <= |b| && NextIn(b, LineEnd(l, i), {')'})
    ensures ParseLine(b, i) == Ok(LineMeans(b, l), Skip(b, LineEnd(l, i)))
    decreases l
  {
    hide ParsePipe; hide ParseLine; hide NextIn; hide Skip; hide SignIn; hide PipelineIn; hide AmpsIn; hide AmpsEnd;
    hide PipelineEnd; hide PipelineMeans; hide Backed; hide NoNul;
    LineBound(b, i, l);
    var j := PipelineEnd(l.p, i);
    var e := AmpsEnd(l.amps, j);
    if l.Then? {
      SignBound(b, e, l.semi, ';');
      SignNext(b, e, l.semi, ';', {';'});
    }
    AfterPipeline(b, j, l.amps);
    PipelineComplete(b, i, l.p);
    if l.Then? {
      LineBound(b, l.semi + 1, l.rest);
      LineComplete(b, l.semi + 1, l.rest);
      LineAnywhere(b, l.semi + 1);
      LineLink(b, i, PipelineMeans(b, l.p), j, l.amps, l.semi);
    } else {
      LineStops(b, i, PipelineMeans(b, l.p), j, l.amps);
    }
  }

  lemma AfterPipeline(b: string, j: nat, amps: seq<nat>)
    requires NoNul(b) && j <= |b| && AmpsIn(b, j, amps) && AmpsEnd(amps, j) <= |b|
    requires NextIn(b, AmpsEnd(amps, j), {')'}) || NextIn(b, AmpsEnd(amps, j), {';'})
    ensures NextIn(b, j, {')', '&', ';'})
  {
    if amps != [] {
      SignNext(b, j, amps[0], '&', {')', '&', ';'});
    }
  }

  // ---------------------------------------------------------------- every line accepted is one of the grammar

  lemma {:induction false} RedirsSound(b: string, i: nat) returns (rs: seq<Arrow>)
    requires NoNul(b) && i <= |b| && Redirs(b, i).Ok?
    ensures ArrowsIn(b, i, rs) && ArrowsEnd(rs, i) <= |b|
    ensures Redirs(b, i) == Ok(Meanings(b, rs), Skip(b, ArrowsEnd(rs, i)))
    decreases |b| - i
  {
    hide GetToken; hide Skip; hide Peek; hide ArrowIn;
    if !Peek(b, i, {'<', '>'}) {
      rs := [];
    } else {
      var r := FirstArrow(b, i);
      RedirsTaken(b, i, r);
      var rest := RedirsSound(b, r.file.eq);
      rs := [r] + rest;
    }
  }

  lemma FirstArrow(b: string, i: nat) returns (r: Arrow)
    requires NoNul(b) && i <= |b| && Redirs(b, i).Ok? && Peek(b, i, {'<', '>'})
    ensures ArrowIn(b, i, r) && i < r.file.eq <= |b|
  {
    r := ArrowSound(b, i);
  }

  // The words and redirections that Args reads from i on.
  lemma {:induction false} ArgsSound(b: string, i: nat, args: seq<Span>, rs: seq<Redirection<Span>>)
    returns (items: seq<Item>)
    requires NoNul(b) && i <= |b| && Args(b, i, args, rs).Ok? && |args| <= 9
    ensures ItemsIn(b, i, items) && |args| + |ArgsOf(items)| <= 9 && ItemsEnd(items, i) <= |b|
    ensures Args(b, i, args, rs) == Result(b, i, items, args, rs)
    decreases |b| - i
  {
    hide GetToken; hide Skip; hide Peek; hide Wrap; hide WordIn; hide ArrowIn; hide Redirs;
    if ArgsOver(b, i) {
      NoItems(b, i, args, rs);
      items := [];
    } else {
      var w := FirstWord(b, i, args, rs);
      var arrows := RedirsSound(b, w.eq);
      ArrowsBound(b, w.eq, arrows);
      var j := ArrowsEnd(arrows, w.eq);
      hide Args;
      SkipBound(b, j);
      ArgsSkips(b, j, args + [w], rs + Meanings(b, arrows));
      var rest := ArgsSound(b, j, args + [w], rs + Meanings(b, arrows));
      ResultArrows(b, w.eq, arrows, rest, args + [w], rs);
      items := [Arg(w)] + (Arrows(arrows) + rest);
      assert items[1..] == Arrows(arrows) + rest;
      ArrowsItems(b, w.eq, arrows, rest);
      LastItem(w, items, i, Arrows(arrows) + rest);
      ResultArg(b, i, items, args, rs);
      hide Result;
    }
  }

  lemma SkipBound(b: string, i: nat)
    requires i <= |b|
    ensures i <= Skip(b, i) <= |b|
  {}

  predicate ArgsOver(b: string, i: nat)
    requires i <= |b|
  {
    Peek(b, i, {'|', ')', '&', ';'}) || GetToken(b, Skip(b, i)).tok == NUL
  }

  lemma NoItems(b: string, i: nat, args: seq<Span>, rs: seq<Redirection<Span>>)
    requires NoNul(b) && i <= |b| && ArgsOver(b, i)
    ensures Args(b, i, args, rs) == Ok(Wrap(rs, Exec(args)), Skip(b, i))
    ensures Result(b, i, [], args, rs) == Ok(Wrap(rs, Exec(args)), Skip(b, i))
  {
    SkipTwice(b, i);
    hide Wrap;
    assert args + [] == args && rs + [] == rs;
    if !Peek(b, i, {'|', ')', '&', ';'}) {
      assert At(b, Skip(b, i)) == NUL;
    }
  }

  lemma FirstWord(b: string, i: nat, args: seq<Span>, rs: seq<Redirection<Span>>) returns (w: Span)
    requires NoNul(b) && i <= |b| && Args(b, i, args, rs).Ok? && !ArgsOver(b, i)
    ensures WordIn(b, i, w) && i < w.eq <= |b| && |args| < 9 && Redirs(b, w.eq).Ok?
    ensures Args(b, i, args, rs) == Args(b, Redirs(b, w.eq).next, args + [w], rs + Redirs(b, w.eq).value)
  {
    var t := GetToken(b, Skip(b, i));
    w := t.span;
    WordSound(b, Skip(b, i));
    SkipGap(b, i);
    SkipTwice(b, i);
    RedirsSkip(b, w.eq);
    hide GetToken; hide Peek; hide Redirs; hide Skip;
  }

  lemma ArgsSkips(b: string, i: nat, args: seq<Span>, rs: seq<Redirection<Span>>)
    requires i <= |b|
    ensures Args(b, Skip(b, i), args, rs) == Args(b, i, args, rs)
  {
    SkipTwice(b, i);
    assert Peek(b, Skip(b, i), {'|', ')', '&', ';'}) == Peek(b, i, {'|', ')', '&', ';'});
    hide Peek; hide Skip; hide GetToken; hide Redirs; hide Wrap;
  }

  function Arrows(rs: seq<Arrow>): (items: seq<Item>)
    ensures |items| == |rs| && forall k | 0 <= k < |rs| :: items[k] == To(rs[k])
  {
    seq(|rs|, k requires 0 <= k < |rs| => To(rs[k]))
  }

  lemma {:induction false} ResultArrows(b: string, i: nat, arrows: seq<Arrow>, rest: seq<Item>, args: seq<Span>,
                                        rs: seq<Redirection<Span>>)
    requires ItemsEnd(rest, ArrowsEnd(arrows, i)) <= |b|
    ensures Result(b, i, Arrows(arrows) + rest, args, rs) ==
            Result(b, ArrowsEnd(arrows, i), rest, args, rs + Meanings(b, arrows))
    ensures ItemsEnd(Arrows(arrows) + rest, i) == ItemsEnd(rest, ArrowsEnd(arrows, i))
    ensures ArgsOf(Arrows(arrows) + rest) == ArgsOf(rest)
    decreases |arrows|
  {
    hide Result; hide Meaning; hide ArgsOf; hide ItemsEnd;
    ArrowsItemsEnd(i, arrows, rest);
    var items := Arrows(arrows) + rest;
    if arrows == [] {
      assert items == rest && rs + [] == rs;
    } else {
      var tail := arrows[1..];
      assert items[1..] == Arrows(tail) + rest && items[0] == To(arrows[0]);
      ArrowsEndNext(i, arrows);
      ResultArrows(b, arrows[0].file.eq, tail, rest, args, rs + [Meaning(b, arrows[0])]);
      ArrowsItemsEnd(arrows[0].file.eq, tail, rest);
      ResultArrow(b, i, items, args, rs);
      assert (rs + [Meaning(b, arrows[0])]) + Meanings(b, tail) == rs + ([Meaning(b, arrows[0])] + Meanings(b, tail));
    }
  }

  lemma ArrowsEndNext(i: nat, arrows: seq<Arrow>)
    requires arrows != []
    ensures ArrowsEnd(arrows[1..], arrows[0].file.eq) == ArrowsEnd(arrows, i)
  {}

  lemma {:induction false} ArrowsItemsEnd(i: nat, arrows: seq<Arrow>, rest: seq<Item>)
    ensures ItemsEnd(Arrows(arrows) + rest, i) == ItemsEnd(rest, ArrowsEnd(arrows, i))
    ensures ArgsOf(Arrows(arrows) + rest) == ArgsOf(rest)
    decreases |arrows|
  {
    var items := Arrows(arrows) + rest;
    if arrows == [] {
      assert items == rest;
    } else {
      var tail := arrows[1..];
      assert items[1..] == Arrows(tail) + rest && items[0] == To(arrows[0]);
      ArrowsItemsEnd(arrows[0].file.eq, tail, rest);
      ArrowsEndNext(i, arrows);
      assert ItemsEnd(items, i) == ItemsEnd(items[1..], arrows[0].file.eq);
      ArgsTail(items);
    }
  }

  lemma ArgsTail(items: seq<Item>)
    requires items != [] && items[0].To?
    ensures ArgsOf(items) == ArgsOf(items[1..])
  {}

  lemma {:induction false} ArrowsItems(b: string, i: nat, arrows: seq<Arrow>, rest: seq<Item>)
    requires ArrowsIn(b, i, arrows) && ItemsIn(b, ArrowsEnd(arrows, i), rest)
    ensures ItemsIn(b, i, Arrows(arrows) + rest)
    decreases |arrows|
  {
    var items := Arrows(arrows) + rest;
    if arrows == [] {
      assert items == rest;
    } else {
      assert items[1..] == Arrows(arrows[1..]) + rest && items[0] == To(arrows[0]);
      ArrowsItems(b, arrows[0].file.eq, arrows[1..], rest);
    }
  }

  lemma LastItem(w: Span, items: seq<Item>, i: nat, rest: seq<Item>)
    requires items == [Arg(w)] + rest
    ensures ItemsEnd(items, i) == ItemsEnd(rest, w.eq) && items[1..] == rest
    ensures ArgsOf(items) == [w] + ArgsOf(rest)
  {}

  lemma {:induction false} NodeSound(b: string, i: nat) returns (n: Node)
    requires NoNul(b) && i <= |b| && ParseExec(b, i).Ok?
    ensures NodeIn(b, i, n) && NodeEnd(n, i) <= |b|
    ensures ParseExec(b, i) == Ok(NodeMeans(b, n), Skip(b, NodeEnd(n, i)))
    decreases |b| - i, 1
  {
    hide Skip; hide GetToken; hide Redirs; hide Args; hide ParseLine;
    if Peek(b, i, {'('}) {
      n := BlockSound(b, i);
    } else {
      n := SimpleSound(b, i);
    }
  }

  lemma SimpleSound(b: string, i: nat) returns (n: Node)
    requires NoNul(b) && i <= |b| && ParseExec(b, i).Ok? && !Peek(b, i, {'('})
    ensures NodeIn(b, i, n) && NodeEnd(n, i) <= |b|
    ensures ParseExec(b, i) == Ok(NodeMeans(b, n), Skip(b, NodeEnd(n, i)))
  {
    hide Skip; hide GetToken; hide Redirs; hide Args; hide Peek;
    RedirsSkip(b, i);
    var arrows := RedirsSound(b, i);
    ArrowsBound(b, i, arrows);
    var j := ArrowsEnd(arrows, i);
    ArgsSkips(b, j, [], Meanings(b, arrows));
    var rest := ArgsSound(b, j, [], Meanings(b, arrows));
    var items := Arrows(arrows) + rest;
    ResultArrows(b, i, arrows, rest, [], []);
    ArrowsItems(b, i, arrows, rest);
    AroundIs(b, ArrowsOf(items), Exec(ArgsOf(items)));
    assert [] + Meanings(b, arrows) == Meanings(b, arrows) && [] + ArgsOf(items) == ArgsOf(items);
    assert [] + Meanings(b, ArrowsOf(items)) == Meanings(b, ArrowsOf(items));
    n := Node.Simple(items);
  }

  lemma ExecIsBlock(b: string, i: nat)
    requires i <= |b| && Peek(b, i, {'('})
    ensures ParseExec(b, i) == ParseBlock(b, Skip(b, i))
  {
    hide ParseBlock; hide Peek; hide Skip;
  }

  // What parseblock does once it is known to succeed.
  lemma BlockUnfolds(b: string, k: nat)
    requires k <= |b| && ParseBlock(b, k).Ok?
    ensures var p := ParseLine(b, GetToken(b, Skip(b, k)).next);
      && p.Ok? && Peek(b, p.next, {')'})
      && var q := Redirs(b, GetToken(b, Skip(b, p.next)).next);
         q.Ok? && ParseBlock(b, k) == Ok(Wrap(q.value, p.value), q.next)
  {
    hide ParseLine; hide GetToken; hide Redirs; hide Wrap; hide Peek; hide Skip;
  }

  lemma BlockOpens(b: string, i: nat) returns (open: nat)
    requires NoNul(b) && i <= |b| && ParseExec(b, i).Ok? && Peek(b, i, {'('})
    ensures SignIn(b, i, open, '(') && i <= open < |b|
    ensures var p := ParseLine(b, open + 1);
      && p.Ok? && Peek(b, p.next, {')'})
      && var q := Redirs(b, GetToken(b, Skip(b, p.next)).next);
         q.Ok? && ParseExec(b, i) == Ok(Wrap(q.value, p.value), q.next)
  {
    hide ParseLine; hide GetToken; hide Redirs; hide Wrap; hide Peek; hide Skip; hide SignIn; hide ParseBlock;
    hide ParseExec; hide NoNul;
    open := SignFound(b, i, '(');
    SignSound(b, i, '(');
    SkipTwice(b, i);
    ExecIsBlock(b, i);
    BlockUnfolds(b, open);
    LineAnywhere(b, open + 1);
  }

  lemma {:induction false} BlockSound(b: string, i: nat) returns (n: Node)
    requires NoNul(b) && i <= |b| && ParseExec(b, i).Ok? && Peek(b, i, {'('})
    ensures NodeIn(b, i, n) && NodeEnd(n, i) <= |b|
    ensures ParseExec(b, i) == Ok(NodeMeans(b, n), Skip(b, NodeEnd(n, i)))
    decreases |b| - i, 0
  {
    hide Skip; hide GetToken; hide Redirs; hide ParseLine; hide Peek; hide ParseExec; hide SignIn; hide Around;
    hide Wrap;
    hide NodeIn; hide NodeMeans; hide NodeEnd; hide LineIn; hide LineEnd; hide LineMeans; hide ArrowsIn; hide NoNul;
    var open := BlockOpens(b, i);
    var line := LineSound(b, open + 1);
    var e := LineEnd(line, open + 1);
    var close, arrows := BlockCloses(b, e);
    AroundIs(b, arrows, LineMeans(b, line));
    n := Block(open, line, close, arrows);
    BlockIs(b, i, open, line, close, arrows);
  }

  lemma BlockIs(b: string, i: nat, open: nat, line: Line, close: nat, arrows: seq<Arrow>)
    ensures NodeIn(b, i, Block(open, line, close, arrows)) <==>
              && SignIn(b, i, open, '(') && LineIn(b, open + 1, line) && SignIn(b, LineEnd(line, open + 1), close, ')')
              && ArrowsIn(b, close + 1, arrows)
    ensures NodeEnd(Block(open, line, close, arrows), i) == ArrowsEnd(arrows, close + 1)
    ensures NodeMeans(b, Block(open, line, close, arrows)) == Around(b, arrows, LineMeans(b, line))
  {
    hide SignIn; hide LineIn; hide LineEnd; hide ArrowsIn; hide ArrowsEnd; hide Around; hide LineMeans;
  }

  lemma BlockCloses(b: string, e: nat) returns (close: nat, arrows: seq<Arrow>)
    requires NoNul(b) && e <= |b| && Peek(b, Skip(b, e), {')'})
    requires Redirs(b, GetToken(b, Skip(b, Skip(b, e))).next).Ok?
    ensures SignIn(b, e, close, ')') && close < |b|
    ensures ArrowsIn(b, close + 1, arrows) && ArrowsEnd(arrows, close + 1) <= |b|
    ensures Redirs(b, GetToken(b, Skip(b, Skip(b, e))).next) ==
            Ok(Meanings(b, arrows), Skip(b, ArrowsEnd(arrows, close + 1)))
  {
    SkipTwice(b, e);
    close := Skip(b, e);
    SignSound(b, e, ')');
    hide GetToken;
    RedirsSkip(b, close + 1);
    arrows := RedirsSound(b, close + 1);
  }

  lemma PipeEnds(b: string, i: nat, c: Cmd<Span>, j: nat)
    requires i <= |b| && j <= |b| && ParseExec(b, i) == Ok(c, Skip(b, j)) && !Peek(b, j, {'|'})
    ensures ParsePipe(b, i) == Ok(c, Skip(b, j))
  {
    SkipTwice(b, j);
    assert !Peek(b, Skip(b, j), {'|'});
    hide ParseExec; hide Peek; hide Skip;
  }

  lemma PipeBegins(b: string, i: nat)
    requires i <= |b| && ParsePipe(b, i).Ok?
    ensures ParseExec(b, i).Ok?
  {
    hide ParseExec;
  }

  lemma OneIs(b: string, i: nat, n: Node)
    ensures PipelineIn(b, i, One(n)) <==> NodeIn(b, i, n)
    ensures PipelineEnd(One(n), i) == NodeEnd(n, i) && PipelineMeans(b, One(n)) == NodeMeans(b, n)
  {
    hide NodeIn; hide NodeEnd; hide NodeMeans;
  }

  lemma BarIs(b: string, i: nat, n: Node, bar: nat, rest: Pipeline)
    ensures PipelineIn(b, i, Bar(n, bar, rest)) <==>
              NodeIn(b, i, n) && SignIn(b, NodeEnd(n, i), bar, '|') && PipelineIn(b, bar + 1, rest)
    ensures PipelineEnd(Bar(n, bar, rest), i) == PipelineEnd(rest, bar + 1)
    ensures PipelineMeans(b, Bar(n, bar, rest)) == Pipe(NodeMeans(b, n), PipelineMeans(b, rest))
  {
    hide NodeIn; hide NodeEnd; hide NodeMeans; hide SignIn;
  }

  lemma LastIs(b: string, i: nat, p: Pipeline, amps: seq<nat>)
    ensures LineIn(b, i, Last(p, amps)) <==> PipelineIn(b, i, p) && AmpsIn(b, PipelineEnd(p, i), amps)
    ensures LineEnd(Last(p, amps), i) == AmpsEnd(amps, PipelineEnd(p, i))
    ensures LineMeans(b, Last(p, amps)) == Backed(|amps|, PipelineMeans(b, p))
  {
    hide PipelineIn; hide PipelineEnd; hide PipelineMeans; hide AmpsIn; hide AmpsEnd; hide Backed;
  }

  lemma ThenIs(b: string, i: nat, p: Pipeline, amps: seq<nat>, semi: nat, rest: Line)
    ensures LineIn(b, i, Then(p, amps, semi, rest)) <==>
              && PipelineIn(b, i, p) && AmpsIn(b, PipelineEnd(p, i), amps)
              && SignIn(b, AmpsEnd(amps, PipelineEnd(p, i)), semi, ';') && LineIn(b, semi + 1, rest)
    ensures LineEnd(Then(p, amps, semi, rest), i) == LineEnd(rest, semi + 1)
    ensures LineMeans(b, Then(p, amps, semi, rest)) ==
            List(Backed(|amps|, PipelineMeans(b, p)), LineMeans(b, rest))
  {
    hide PipelineIn; hide PipelineEnd; hide PipelineMeans; hide AmpsIn; hide AmpsEnd; hide Backed; hide SignIn;
  }

  lemma {:induction false} PipelineSound(b: string, i: nat) returns (p: Pipeline)
    requires NoNul(b) && i <= |b| && ParsePipe(b, i).Ok?
    ensures PipelineIn(b, i, p) && PipelineEnd(p, i) <= |b|
    ensures ParsePipe(b, i) == Ok(PipelineMeans(b, p), Skip(b, PipelineEnd(p, i)))
    decreases |b| - i, 2
  {
    PipeBegins(b, i);
    hide ParseExec; hide ParsePipe; hide Skip; hide SignIn; hide NodeIn; hide Peek;
    hide PipelineIn; hide PipelineEnd; hide PipelineMeans; hide NodeEnd; hide NodeMeans;
    var n := NodeSound(b, i);
    NodeBound(b, i, n);
    var j := NodeEnd(n, i);
    if Peek(b, j, {'|'}) {
      var bar := Skip(b, j);
      SkipBound(b, j);
      SignSound(b, j, '|');
      SignBound(b, j, bar, '|');
      PipeLink(b, i, NodeMeans(b, n), j, bar);
      StartsAnywhere(b, bar + 1);
      var rest := PipelineSound(b, bar + 1);
      p := Bar(n, bar, rest);
      BarIs(b, i, n, bar, rest);
    } else {
      PipeEnds(b, i, NodeMeans(b, n), j);
      p := One(n);
      OneIs(b, i, n);
    }
  }

  lemma {:induction false} AmpsSound(b: string, i: nat, c: Cmd<Span>) returns (amps: seq<nat>)
    requires NoNul(b) && i <= |b|
    ensures AmpsIn(b, i, amps) && AmpsEnd(amps, i) <= |b| && !Peek(b, AmpsEnd(amps, i), {'&'})
    ensures Amps(b, i, c) == Ok(Backed(|amps|, c), Skip(b, AmpsEnd(amps, i)))
    decreases |b| - i
  {
    hide Skip; hide Peek; hide GetToken; hide SignIn;
    if Peek(b, i, {'&'}) {
      var k := Skip(b, i);
      SkipBound(b, i);
      SignSound(b, i, '&');
      SignBound(b, i, k, '&');
      AmpsSkips(b, k + 1, Back(c));
      var rest := AmpsSound(b, k + 1, Back(c));
      amps := [k] + rest;
      assert amps[1..] == rest && AmpsEnd(amps, i) == AmpsEnd(rest, k + 1);
    } else {
      amps := [];
    }
  }

  lemma LineEnds(b: string, i: nat, c: Cmd<Span>, j: nat, d: Cmd<Span>, e: nat)
    requires i <= |b| && j <= |b| && e <= |b| && ParsePipe(b, i) == Ok(c, Skip(b, j))
    requires Amps(b, j, c) == Ok(d, Skip(b, e)) && !Peek(b, e, {';'})
    ensures ParseLine(b, i) == Ok(d, Skip(b, e))
  {
    AmpsSkips(b, j, c);
    SkipTwice(b, e);
    assert !Peek(b, Skip(b, e), {';'});
    hide ParsePipe; hide Amps; hide Peek; hide Skip;
  }

  lemma LineGoesOn(b: string, i: nat, c: Cmd<Span>, j: nat, d: Cmd<Span>, e: nat, semi: nat)
    requires NoNul(b) && i <= |b| && j <= |b| && e <= |b| && ParsePipe(b, i) == Ok(c, Skip(b, j))
    requires Amps(b, j, c) == Ok(d, Skip(b, e)) && SignIn(b, e, semi, ';')
    ensures ParseLine(b, i) == match ParseLine(b, Skip(b, semi + 1))
                               case Panic(m) => Panic(m)
                               case Ok(x, k) => Ok(List(d, x), k)
  {
    AmpsSkips(b, j, c);
    SignReads(b, e, semi, ';');
    SignAgain(b, e, semi, ';');
    SkipTwice(b, e);
    hide ParsePipe; hide Amps; hide GetToken;
  }

  lemma LineBegins(b: string, i: nat)
    requires i <= |b| && ParseLine(b, i).Ok?
    ensures ParsePipe(b, i).Ok?
  {
    hide ParsePipe;
  }

  // parseline up to its semicolon.
  lemma {:induction false} LineStart(b: string, i: nat) returns (p: Pipeline, amps: seq<nat>)
    requires NoNul(b) && i <= |b| && ParseLine(b, i).Ok?
    ensures PipelineIn(b, i, p) && i <= PipelineEnd(p, i) <= |b| && AmpsIn(b, PipelineEnd(p, i), amps)
    ensures PipelineEnd(p, i) <= AmpsEnd(amps, PipelineEnd(p, i)) <= |b|
    ensures ParsePipe(b, i) == Ok(PipelineMeans(b, p), Skip(b, PipelineEnd(p, i)))
    ensures Amps(b, PipelineEnd(p, i), PipelineMeans(b, p)) ==
            Ok(Backed(|amps|, PipelineMeans(b, p)), Skip(b, AmpsEnd(amps, PipelineEnd(p, i))))
    decreases |b| - i, 3
  {
    LineBegins(b, i);
    hide ParsePipe; hide ParseLine; hide Skip; hide PipelineIn; hide Amps; hide AmpsIn; hide PipelineEnd;
    hide PipelineMeans; hide AmpsEnd; hide Backed;
    p := PipelineSound(b, i);
    PipelineBound(b, i, p);
    amps := AmpsSound(b, PipelineEnd(p, i), PipelineMeans(b, p));
    AmpsBound(b, PipelineEnd(p, i), amps);
  }

  lemma LineSemicolon(b: string, i: nat, c: Cmd<Span>, j: nat, d: Cmd<Span>, e: nat) returns (semi: nat)
    requires NoNul(b) && i <= j <= e <= |b| && ParsePipe(b, i) == Ok(c, Skip(b, j)) && ParseLine(b, i).Ok?
    requires Amps(b, j, c) == Ok(d, Skip(b, e)) && Peek(b, e, {';'})
    ensures SignIn(b, e, semi, ';') && i <= semi < |b|
    ensures var r := ParseLine(b, semi + 1); r.Ok? && ParseLine(b, i) == Ok(List(d, r.value), r.next)
  {
    hide ParseLine; hide ParsePipe; hide Amps; hide Skip; hide SignIn; hide Peek; hide NoNul;
    semi := SignFound(b, e, ';');
    LineGoesOn(b, i, c, j, d, e, semi);
    LineAnywhere(b, semi + 1);
  }

  lemma {:induction false} LineSound(b: string, i: nat) returns (l: Line)
    requires NoNul(b) && i <= |b| && ParseLine(b, i).Ok?
    ensures LineIn(b, i, l) && LineEnd(l, i) <= |b|
    ensures ParseLine(b, i) == Ok(LineMeans(b, l), Skip(b, LineEnd(l, i)))
    decreases |b| - i, 4
  {
    hide ParsePipe; hide ParseLine; hide Skip; hide SignIn; hide PipelineIn; hide Peek; hide Amps; hide AmpsIn;
    hide LineIn; hide LineEnd; hide LineMeans; hide PipelineEnd; hide PipelineMeans; hide AmpsEnd; hide Backed;
    hide NoNul;
    var p, amps := LineStart(b, i);
    var j, c := PipelineEnd(p, i), PipelineMeans(b, p);
    var e, d := AmpsEnd(amps, j), Backed(|amps|, c);
    if Peek(b, e, {';'}) {
      var semi := LineSemicolon(b, i, c, j, d, e);
      var rest := LineSound(b, semi + 1);
      l := Then(p, amps, semi, rest);
      ThenIs(b, i, p, amps, semi, rest);
    } else {
      LineEnds(b, i, c, j, d, e);
      l := Last(p, amps);
      LastIs(b, i, p, amps);
    }
  }

  // ---------------------------------------------------------------- the main results

  // A line of the grammar parses to its meaning.
  lemma GrammarIsAccepted(b: string, l: Line)
    requires NoNul(b) && IsLine(b, l)
    ensures ParseCmd(b) == Ok(LineMeans(b, l), |b|)
  {
    LineBound(b, 0, l);
    var e := LineEnd(l, 0);
    GapSkips(b, e, |b|);
    SkipTwice(b, e);
    assert NextIn(b, e, {')'});
    hide Skip; hide NextIn; hide LineIn;
    LineComplete(b, 0, l);
  }

  // What parses is a line of the grammar, with that meaning.
  lemma AcceptedIsGrammar(b: string) returns (l: Line)
    requires NoNul(b) && ParseCmd(b).Ok?
    ensures IsLine(b, l) && ParseCmd(b) == Ok(LineMeans(b, l), |b|)
  {
    l := LineSound(b, 0);
    var e := LineEnd(l, 0);
    SkipTwice(b, e);
    SkipGap(b, e);
    hide Skip; hide LineIn;
  }

  // So the parser fails on exactly the lines that the grammar does not have.
  lemma FailsIff(b: string)
    requires NoNul(b)
    ensures ParseCmd(b).Panic? <==> forall l: Line :: !IsLine(b, l)
  {
    hide IsLine; hide ParseCmd;
    if ParseCmd(b).Ok? {
      var l := AcceptedIsGrammar(b);
    } else {
      forall l: Line
        ensures !IsLine(b, l)
      {
        if IsLine(b, l) {
          GrammarIsAccepted(b, l);
        }
      }
    }
  }

  // ---------------------------------------------------------------- the separators

  // Two words with any white-space character between them are two words.
  lemma TwoWords(a: string, c: char, b: string)
    requires a != "" && b != "" && c in {' ', '\t', '\r', '\n', '\U{00000B}'}
    requires forall k | 0 <= k < |a| :: Plain(a[k])
    requires forall k | 0 <= k < |b| :: Plain(b[k])
    ensures ParseCmd(a + [c] + b) ==
            Ok(Exec([Span(0, |a|), Span(|a| + 1, |a| + 1 + |b|)]), |a| + 1 + |b|)
  {
    var s, n := a + [c] + b, |a|;
    var v, w := Span(0, n), Span(n + 1, |s|);
    assert forall k | 0 <= k < n :: s[k] == a[k];
    assert s[n] == c && forall k | n < k < |s| :: s[k] == b[k - n - 1];
    var items := [Arg(v), Arg(w)];
    assert WordIn(s, 0, v) && WordIn(s, n, w);
    TwoItems(s, 0, v, w);
    var n0 := Node.Simple(items);
    var l := Last(One(n0), []);
    assert NodeIn(s, 0, n0) && NodeEnd(n0, 0) == |s| && NodeMeans(s, n0) == Exec([v, w]);
    OneIs(s, 0, n0);
    LastIs(s, 0, One(n0), []);
    hide NodeIn; hide NodeEnd; hide NodeMeans; hide PipelineIn; hide LineIn; hide PipelineEnd; hide LineEnd;
    GrammarIsAccepted(s, l);
  }

  lemma TwoItems(b: string, i: nat, v: Span, w: Span)
    requires WordIn(b, i, v) && WordIn(b, v.eq, w)
    ensures ItemsIn(b, i, [Arg(v), Arg(w)])
    ensures ArgsOf([Arg(v), Arg(w)]) == [v, w] && ArrowsOf([Arg(v), Arg(w)]) == []
  {
    hide WordIn;
    var items := [Arg(v), Arg(w)];
    assert items[1..] == [Arg(w)] && items[1..][1..] == [];
    assert ItemsIn(b, v.eq, items[1..]);
    assert ArgsOf(items[1..]) == [w] + ArgsOf([]) == [w];
    assert ArrowsOf(items[1..]) == [] + ArrowsOf([]) == [];
    assert ArrowsOf(items) == [] + ArrowsOf(items[1..]) == [];
  }

  function Words(c: Cmd<Span>): set<Span> {
    match c
    case Exec(args) => set w | w in args
    case Redir(x, f, _, _) => Words(x) + {f}
    case Pipe(l, r) => Words(l) + Words(r)
    case List(l, r) => Words(l) + Words(r)
    case Back(x) => Words(x)
  }

  // No word of a command contains white space or any of the signs.
  lemma WordsArePlain(b: string, w: Span, k: nat)
    requires NoNul(b) && ParseCmd(b).Ok? && w in Words(ParseCmd(b).value) && w.q <= k < w.eq
    ensures k < |b| && b[k] !in {' ', '\t', '\r', '\n', '\U{00000B}', '<', '|', '>', '&', ';', '(', ')'}
  {
    LineGood(b, 0);
    WordsGood(b, ParseCmd(b).value, w);
  }

  lemma {:induction false} WordsGood(b: string, c: Cmd<Span>, w: Span)
    requires GoodTree(b, c) && w in Words(c)
    ensures GoodSpan(b, w)
  {
    match c
    case Exec(args) =>
    case Redir(x, f, _, _) => if w != f { WordsGood(b, x, w); }
    case Pipe(l, r) => if w in Words(l) { WordsGood(b, l, w); } else { WordsGood(b, r, w); }
    case List(l, r) => if w in Words(l) { WordsGood(b, l, w); } else { WordsGood(b, r, w); }
    case Back(x) => WordsGood(b, x, w);
  }
}
