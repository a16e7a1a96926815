/** The grammar of the shell's lines, written down in characters and without the parser: which lines
    there are, with white space wherever a token may begin, and which command each one means. parsecmd
    accepts exactly these lines and gives exactly these meanings. */
module ShGrammar {
  import opened ShSpec

  // ---------------------------------------------------------------- characters

  predicate Blank(c: char) {
    c == ' ' || c == '\t' || c == '\r' || c == '\n' || c == '\U{00000B}'
  }

  predicate Sign(c: char) {
    c == '<' || c == '>' || c == '|' || c == '&' || c == ';' || c == '(' || c == ')'
  }

  predicate Plain(c: char) {
    c != '\0' && !Blank(c) && !Sign(c)
  }

  predicate Gap(b: string, i: nat, j: nat) {
    i <= j <= |b| && forall k | i <= k < j :: Blank(b[k])
  }

  // After a gap from i on comes the word w, and no more of it.
  predicate WordIn(b: string, i: nat, w: Span) {
    && Gap(b, i, w.q) && w.q < w.eq <= |b|
    && (forall k | w.q <= k < w.eq :: Plain(b[k]))
    && (w.eq < |b| ==> !Plain(b[w.eq]))
  }

  // After a gap from i on comes the character c, at k.
  predicate SignIn(b: string, i: nat, k: nat, c: char) {
    Gap(b, i, k) && k < |b| && b[k] == c
  }

  // ---------------------------------------------------------------- lines

  // A redirection: the position of its operator, and its file.
  datatype Arrow = Arrow(at: nat, file: Span)

  datatype Item = Arg(w: Span) | To(r: Arrow)

  datatype Node = Simple(items: seq<Item>) | Block(open: nat, line: Line, close: nat, arrows: seq<Arrow>)

  datatype Pipeline = One(n: Node) | Bar(n: Node, bar: nat, rest: Pipeline)

  datatype Line = Last(p: Pipeline, amps: seq<nat>) | Then(p: Pipeline, amps: seq<nat>, semi: nat, rest: Line)

  // Where each of them ends, if it begins at i.
  function ItemsEnd(items: seq<Item>, i: nat): nat {
    if items == [] then i
    else
      var x := items[|items| - 1];
      if x.Arg? then x.w.eq else x.r.file.eq
  }

  function ArrowsEnd(rs: seq<Arrow>, i: nat): nat {
    if rs == [] then i else rs[|rs| - 1].file.eq
  }

  function NodeEnd(n: Node, i: nat): nat {
    if n.Simple? then ItemsEnd(n.items, i) else ArrowsEnd(n.arrows, n.close + 1)
  }

  function PipelineEnd(p: Pipeline, i: nat): nat {
    if p.One? then NodeEnd(p.n, i) else PipelineEnd(p.rest, p.bar + 1)
  }

  function AmpsEnd(amps: seq<nat>, i: nat): nat {
    if amps == [] then i else amps[|amps| - 1] + 1
  }

  function LineEnd(l: Line, i: nat): nat {
    if l.Last? then AmpsEnd(l.amps, PipelineEnd(l.p, i)) else LineEnd(l.rest, l.semi + 1)
  }

  // The operator at k: one character, or the two of >>.
  function OpEnd(b: string, k: nat): nat {
    if k + 1 < |b| && b[k] == '>' && b[k + 1] == '>' then k + 2 else k + 1
  }

  predicate ArrowIn(b: string, i: nat, r: Arrow) {
    Gap(b, i, r.at) && r.at < |b| && (b[r.at] == '<' || b[r.at] == '>') && WordIn(b, OpEnd(b, r.at), r.file)
  }

  predicate ArrowsIn(b: string, i: nat, rs: seq<Arrow>)
    decreases |rs|
  {
    rs == [] || (ArrowIn(b, i, rs[0]) && ArrowsIn(b, rs[0].file.eq, rs[1..]))
  }

  predicate ItemsIn(b: string, i: nat, items: seq<Item>)
    decreases |items|
  {
    || items == []
    || (items[0].Arg? && WordIn(b, i, items[0].w) && ItemsIn(b, items[0].w.eq, items[1..]))
    || (items[0].To? && ArrowIn(b, i, items[0].r) && ItemsIn(b, items[0].r.file.eq, items[1..]))
  }

  predicate AmpsIn(b: string, i: nat, amps: seq<nat>)
    decreases |amps|
  {
    amps == [] || (SignIn(b, i, amps[0], '&') && AmpsIn(b, amps[0] + 1, amps[1..]))
  }

  predicate NodeIn(b: string, i: nat, n: Node)
    decreases n
  {
    match n
    case Simple(items) => ItemsIn(b, i, items) && |ArgsOf(items)| <= 9
    case Block(open, line, close, arrows) =>
      && SignIn(b, i, open, '(') && LineIn(b, open + 1, line) && SignIn(b, LineEnd(line, open + 1), close, ')')
      && ArrowsIn(b, close + 1, arrows)
  }

  predicate PipelineIn(b: string, i: nat, p: Pipeline)
    decreases p
  {
    match p
    case One(n) => NodeIn(b, i, n)
    case Bar(n, bar, rest) => NodeIn(b, i, n) && SignIn(b, NodeEnd(n, i), bar, '|') && PipelineIn(b, bar + 1, rest)
  }

  predicate LineIn(b: string, i: nat, l: Line)
    decreases l
  {
    && PipelineIn(b, i, l.p) && AmpsIn(b, PipelineEnd(l.p, i), l.amps)
    && (l.Then? ==>
          SignIn(b, AmpsEnd(l.amps, PipelineEnd(l.p, i)), l.semi, ';') && LineIn(b, l.semi + 1, l.rest))
  }

  // ---------------------------------------------------------------- what they mean

  function ArgsOf(items: seq<Item>): seq<Span> {
    if items == [] then [] else (if items[0].Arg? then [items[0].w] else []) + ArgsOf(items[1..])
  }

  function ArrowsOf(items: seq<Item>): seq<Arrow> {
    if items == [] then [] else (if items[0].To? then [items[0].r] else []) + ArrowsOf(items[1..])
  }

  // Redirections, the first one innermost. Output files are opened for writing and created: 0x001 | 0x200.
  function Around(b: string, rs: seq<Arrow>, c: Cmd<Span>): Cmd<Span>
    decreases |rs|
  {
    if rs == [] then c
    else
      var r := rs[0];
      var input := r.at < |b| && b[r.at] == '<';
      Around(b, rs[1..], if input then Redir(c, r.file, 0, 0) else Redir(c, r.file, 513, 1))
  }

  function Backed(n: nat, c: Cmd<Span>): Cmd<Span> {
    if n == 0 then c else Backed(n - 1, Back(c))
  }

  function NodeMeans(b: string, n: Node): Cmd<Span> {
    match n
    case Simple(items) => Around(b, ArrowsOf(items), Exec(ArgsOf(items)))
    case Block(_, line, _, arrows) => Around(b, arrows, LineMeans(b, line))
  }

  function PipelineMeans(b: string, p: Pipeline): Cmd<Span> {
    match p
    case One(n) => NodeMeans(b, n)
    case Bar(n, _, rest) => Pipe(NodeMeans(b, n), PipelineMeans(b, rest))
  }

  function LineMeans(b: string, l: Line): Cmd<Span> {
    var c := Backed(|l.amps|, PipelineMeans(b, l.p));
    if l.Last? then c else List(c, LineMeans(b, l.rest))
  }

  // The whole of b is the line l.
  predicate IsLine(b: string, l: Line) {
    LineIn(b, 0, l) && Gap(b, LineEnd(l, 0), |b|)
  }
}
