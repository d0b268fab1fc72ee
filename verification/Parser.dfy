/**
  The expression parser of the scripting language (internal/lr/parser.go): one method for
  each kind of layer, on a shared cursor, against the printing with the fewest parentheses.
*/
module Parser {
  import opened Dag

  datatype Op = PipePipe | Or | AmpAmp | And | EqEq | BangEq | Lt | LtEq | Gt | GtEq | In
              | Plus | Minus | Star | Slash | Percent | Bang | Not

  datatype Tok = TNum(num: nat) | TStr(str: string) | TIdent(name: string) | TTrue | TFalse | TNull | Sym(op: Op)
               | LParen | RParen | LBrack | RBrack | LBrace | RBrace | Comma | Colon | Dot | Semi | Other(word: string)

  datatype Expr = Num(num: nat) | Str(str: string) | True | False | Null | Ident(name: string)
                | Binary(op: Op, left: Expr, right: Expr) | Unary(op: Op, x: Expr)
                | Call(fn: Expr, args: seq<Expr>) | Index(obj: Expr, index: Expr) | Member(obj: Expr, name: string)
                | ListLit(elems: seq<Expr>) | MapLit(keys: seq<string>, vals: seq<Expr>)

  // The layers, loosest first: six of binary operators, then unary, postfix and primary.
  const UNARY: nat := 6
  const POSTFIX: nat := 7
  const PRIMARY: nat := 8

  /** The layer of a binary operator. */
  function Layer(op: Op): nat {
    match op
    case PipePipe | Or => 0
    case AmpAmp | And => 1
    case EqEq | BangEq => 2
    case Lt | LtEq | Gt | GtEq | In => 3
    case Plus | Minus => 4
    case Star | Slash | Percent => 5
    case Bang | Not => PRIMARY
  }

  predicate Prefix(op: Op) {
    op == Minus || op == Bang || op == Not
  }

  predicate At(ts: seq<Tok>, t: Tok) {
    ts != [] && ts[0] == t
  }

  predicate AtPrefix(ts: seq<Tok>) {
    ts != [] && ts[0].Sym? && Prefix(ts[0].op)
  }

  predicate AtLayer(ts: seq<Tok>, layer: nat) {
    ts != [] && ts[0].Sym? && Layer(ts[0].op) == layer
  }

  // ---------- What parsing gives ----------

  type Parsed = Option<(Expr, seq<Tok>)>
  type ParsedAll = Option<(seq<Expr>, seq<Tok>)>
  type ParsedMap = Option<(seq<string>, seq<Expr>, seq<Tok>)>

  /** The expression at the front of `ts` as layer `layer` reads it, and the tokens behind it. */
  function Parse(layer: nat, ts: seq<Tok>): (r: Parsed)
    requires layer <= PRIMARY
    ensures r.Some? ==> |r.value.1| < |ts|
    decreases |ts|, PRIMARY + 1 - layer
  {
    if layer < UNARY then
      match Parse(layer + 1, ts)
      case None => None
      case Some((left, rest)) => Tail(layer, left, rest)
    else if layer == UNARY then
      if AtPrefix(ts) then
        match Parse(UNARY, ts[1..])
        case None => None
        case Some((x, rest)) => Some((Unary(ts[0].op, x), rest))
      else Parse(POSTFIX, ts)
    else if layer == POSTFIX then
      match Parse(PRIMARY, ts)
      case None => None
      case Some((e, rest)) => Suffixes(e, rest)
    else Primary(ts)
  }

  /** The loop of a binary layer. */
  function Tail(layer: nat, left: Expr, ts: seq<Tok>): (r: Parsed)
    requires layer < UNARY
    ensures r.Some? ==> |r.value.1| <= |ts|
    decreases |ts|, 0
  {
    if AtLayer(ts, layer) then
      match Parse(layer + 1, ts[1..])
      case None => None
      case Some((right, rest)) => Tail(layer, Binary(ts[0].op, left, right), rest)
    else Some((left, ts))
  }

  /** The loop of the postfix layer. */
  function Suffixes(e: Expr, ts: seq<Tok>): (r: Parsed)
    ensures r.Some? ==> |r.value.1| <= |ts|
    decreases |ts|, 0
  {
    if At(ts, LParen) then
      if At(ts[1..], RParen) then Suffixes(Call(e, []), ts[2..])
      else
        match ParseArgs(ts[1..])
        case None => None
        case Some((args, rest)) => if At(rest, RParen) then Suffixes(Call(e, args), rest[1..]) else None
    else if At(ts, LBrack) then
      match Parse(0, ts[1..])
      case None => None
      case Some((idx, rest)) => if At(rest, RBrack) then Suffixes(Index(e, idx), rest[1..]) else None
    else if At(ts, Dot) then
      if |ts| > 1 && ts[1].TIdent? then Suffixes(Member(e, ts[1].name), ts[2..]) else None
    else Some((e, ts))
  }

  /** One or more arguments; a comma asks for another. */
  function ParseArgs(ts: seq<Tok>): (r: ParsedAll)
    ensures r.Some? ==> |r.value.1| < |ts|
    decreases |ts|, PRIMARY + 2
  {
    match Parse(0, ts)
    case None => None
    case Some((e, rest)) =>
      if At(rest, Comma) then
        match ParseArgs(rest[1..])
        case None => None
        case Some((es, rest')) => Some(([e] + es, rest'))
      else Some(([e], rest))
  }

  /** One or more list elements up to the closing bracket; a comma may precede it. */
  function ParseElems(ts: seq<Tok>): (r: ParsedAll)
    ensures r.Some? ==> |r.value.1| < |ts|
    decreases |ts|, PRIMARY + 2
  {
    match Parse(0, ts)
    case None => None
    case Some((e, rest)) =>
      if At(rest, Comma) then
        if At(rest[1..], RBrack) then Some(([e], rest[2..]))
        else
          match ParseElems(rest[1..])
          case None => None
          case Some((es, rest')) => Some(([e] + es, rest'))
      else if At(rest, RBrack) then Some(([e], rest[1..]))
      else None
  }

  function KeyOf(ts: seq<Tok>): Option<string> {
    if ts == [] then None
    else
      match ts[0]
      case TIdent(name) => Some(name)
      case TStr(str) => Some(str)
      case _ => None
  }

  /** One map entry: a key, a colon and a value. */
  function ParseEntry(ts: seq<Tok>): (r: Option<(string, Expr, seq<Tok>)>)
    ensures r.Some? ==> |r.value.2| < |ts|
    decreases |ts|, PRIMARY + 2
  {
    if KeyOf(ts) == None || !At(ts[1..], Colon) then None
    else
      match Parse(0, ts[2..])
      case None => None
      case Some((v, rest)) => Some((KeyOf(ts).value, v, rest))
  }

  /** One or more map entries up to the closing brace. */
  function ParseEntries(ts: seq<Tok>): (r: ParsedMap)
    ensures r.Some? ==> |r.value.2| < |ts| && |r.value.0| == |r.value.1|
    decreases |ts|, PRIMARY + 3
  {
    match ParseEntry(ts)
    case None => None
    case Some((key, v, rest)) =>
      if At(rest, Comma) then
        if At(rest[1..], RBrace) then Some(([key], [v], rest[2..]))
        else
          match ParseEntries(rest[1..])
          case None => None
          case Some((ks, vs, rest')) => Some(([key] + ks, [v] + vs, rest'))
      else if At(rest, RBrace) then Some(([key], [v], rest[1..]))
      else None
  }

  function Primary(ts: seq<Tok>): (r: Parsed)
    ensures r.Some? ==> |r.value.1| < |ts|
    decreases |ts|, 0
  {
    if ts == [] then None
    else
      match ts[0]
      case TNum(n) => Some((Num(n), ts[1..]))
      case TStr(s) => Some((Str(s), ts[1..]))
      case TTrue => Some((True, ts[1..]))
      case TFalse => Some((False, ts[1..]))
      case TNull => Some((Null, ts[1..]))
      case TIdent(name) => Some((Ident(name), ts[1..]))
      case LParen =>
        (match Parse(0, ts[1..])
         case None => None
         case Some((e, rest)) => if At(rest, RParen) then Some((e, rest[1..])) else None)
      case LBrack =>
        if At(ts[1..], RBrack) then Some((ListLit([]), ts[2..]))
        else
          (match ParseElems(ts[1..])
           case None => None
           case Some((es, rest)) => Some((ListLit(es), rest)))
      case LBrace =>
        if At(ts[1..], RBrace) then Some((MapLit([], []), ts[2..]))
        else
          (match ParseEntries(ts[1..])
           case None => None
           case Some((ks, vs, rest)) => Some((MapLit(ks, vs), rest)))
      case _ => None
  }

  // ---------- Printing with the fewest parentheses ----------

  /** Operators stand where they belong, and maps pair keys with values. */
  ghost predicate WellFormed(e: Expr) {
    match e
    case Binary(op, l, r) => Layer(op) < UNARY && WellFormed(l) && WellFormed(r)
    case Unary(op, x) => Prefix(op) && WellFormed(x)
    case Call(f, args) => WellFormed(f) && forall a :: a in args ==> WellFormed(a)
    case Index(o, i) => WellFormed(o) && WellFormed(i)
    case Member(o, _) => WellFormed(o)
    case ListLit(es) => forall x :: x in es ==> WellFormed(x)
    case MapLit(ks, vs) => |ks| == |vs| && forall x :: x in vs ==> WellFormed(x)
    case _ => true
  }

  /** The tightest layer that reads the expression without parentheses. */
  function Rank(e: Expr): nat {
    match e
    case Binary(op, _, _) => Layer(op)
    case Unary(_, _) => UNARY
    case Call(_, _) => POSTFIX
    case Index(_, _) => POSTFIX
    case Member(_, _) => POSTFIX
    case _ => PRIMARY
  }

  ghost function Print(e: Expr, layer: nat): seq<Tok>
    decreases e, 2, 0
  {
    if Rank(e) < layer then [LParen] + Bare(e) + [RParen] else Bare(e)
  }

  ghost function Bare(e: Expr): seq<Tok>
    decreases e, 1, 0
  {
    match e
    case Num(n) => [TNum(n)]
    case Str(s) => [TStr(s)]
    case True => [TTrue]
    case False => [TFalse]
    case Null => [TNull]
    case Ident(name) => [TIdent(name)]
    case Binary(op, l, r) => Print(l, Layer(op)) + [Sym(op)] + Print(r, Layer(op) + 1)
    case Unary(op, x) => [Sym(op)] + Print(x, UNARY)
    case Call(f, args) => Print(f, POSTFIX) + [LParen] + PrintAll(e, args) + [RParen]
    case Index(o, i) => Print(o, POSTFIX) + [LBrack] + Print(i, 0) + [RBrack]
    case Member(o, name) => Print(o, POSTFIX) + [Dot, TIdent(name)]
    case ListLit(es) => [LBrack] + PrintAll(e, es) + [RBrack]
    case MapLit(ks, vs) => [LBrace] + PrintEntries(e, ks, vs) + [RBrace]
  }

  /** Expressions separated by commas; they are parts of `whole`. */
  ghost function PrintAll(whole: Expr, es: seq<Expr>): seq<Tok>
    requires forall i {:trigger es[i]} :: 0 <= i < |es| ==> es[i] < whole
    decreases whole, 0, |es|
  {
    if es == [] then [] else if |es| == 1 then Print(es[0], 0) else Print(es[0], 0) + [Comma] + PrintAll(whole, es[1..])
  }

  ghost function PrintEntries(whole: Expr, ks: seq<string>, vs: seq<Expr>): seq<Tok>
    requires forall i {:trigger vs[i]} :: 0 <= i < |vs| ==> vs[i] < whole
    decreases whole, 0, |vs|
  {
    if ks == [] || vs == [] then []
    else if |vs| == 1 then [TStr(ks[0]), Colon] + Print(vs[0], 0)
    else [TStr(ks[0]), Colon] + Print(vs[0], 0) + ([Comma] + PrintEntries(whole, ks[1..], vs[1..]))
  }

  // ---------- Parsing what was printed ----------

  /** No layer from `layer` on reads on into `rest`. */
  predicate Stops(rest: seq<Tok>, layer: nat) {
    && (rest != [] && rest[0].Sym? ==> !(layer <= Layer(rest[0].op) < UNARY))
    && (layer <= POSTFIX ==> !At(rest, LParen) && !At(rest, LBrack) && !At(rest, Dot))
  }

  /** What a layer makes of an expression it has just read. */
  function Continue(layer: nat, e: Expr, rest: seq<Tok>): Parsed
    requires layer <= PRIMARY
  {
    if layer < UNARY then Tail(layer, e, rest) else if layer == POSTFIX then Suffixes(e, rest) else Some((e, rest))
  }

  predicate Starter(t: Tok) {
    match t
    case Sym(op) => Prefix(op)
    case RParen | RBrack | RBrace | Comma | Colon | Dot | Semi | Other(_) => false
    case _ => true
  }

  /** A printed expression starts with a token that only starts expressions; postfix ones with no prefix operator. */
  lemma {:induction false} PrintStarts(e: Expr, layer: nat)
    requires WellFormed(e)
    ensures Print(e, layer) != [] && Starter(Print(e, layer)[0])
    ensures layer >= POSTFIX ==> !Print(e, layer)[0].Sym?
    decreases e
  {
    match e
    case Binary(op, l, _) => PrintStarts(l, Layer(op));
    case Call(f, _) => PrintStarts(f, POSTFIX);
    case Index(o, _) => PrintStarts(o, POSTFIX);
    case Member(o, _) => PrintStarts(o, POSTFIX);
    case _ =>
  }

  /** Reading a printed expression at a layer leaves that layer to read on behind it. */
  lemma {:induction false} ParsePrint(layer: nat, e: Expr, rest: seq<Tok>)
    requires layer <= PRIMARY && WellFormed(e) && Stops(rest, layer + 1)
    ensures Parse(layer, Print(e, layer) + rest) == Continue(layer, e, rest)
    decreases e, if layer > Rank(e) then 3 else 2, PRIMARY - layer
  {
    if layer == Rank(e) {
      if layer < UNARY {
        ParseBinary(e, e.op, e.left, e.right, rest);
      } else if layer == UNARY {
        ParseUnary(e, e.op, e.x, rest);
      } else if layer == POSTFIX {
        ParsePostfix(e, rest);
      } else {
        ParsePrimary(e, rest);
      }
    } else if layer == PRIMARY {
      ParsePrint(0, e, [RParen] + rest);
      assert Continue(0, e, [RParen] + rest) == Some((e, [RParen] + rest));
      ParseParens(e, rest);
    } else {
      ParsePrint(layer + 1, e, rest);
      ParseDown(layer, e, rest);
    }
  }

  /** The same when the layer does not read on. */
  lemma {:induction false} ParseAlone(layer: nat, e: Expr, rest: seq<Tok>)
    requires layer <= PRIMARY && WellFormed(e) && Stops(rest, layer)
    ensures Parse(layer, Print(e, layer) + rest) == Some((e, rest))
    decreases e, 4, 0
  {
    ParsePrint(layer, e, rest);
  }

  /** A layer hands down what is printed alike for the next one. */
  lemma ParseDown(layer: nat, e: Expr, rest: seq<Tok>)
    requires layer < PRIMARY && layer != Rank(e) && WellFormed(e) && Stops(rest, layer + 1)
    requires Parse(layer + 1, Print(e, layer + 1) + rest) == Continue(layer + 1, e, rest)
    ensures Parse(layer, Print(e, layer) + rest) == Continue(layer, e, rest)
  {
    assert Print(e, layer) == Print(e, layer + 1);
    if layer == UNARY { PrintStarts(e, POSTFIX); }
  }

  lemma ParseParens(e: Expr, rest: seq<Tok>)
    requires Rank(e) < PRIMARY && Parse(0, Print(e, 0) + ([RParen] + rest)) == Some((e, [RParen] + rest))
    ensures Parse(PRIMARY, Print(e, PRIMARY) + rest) == Some((e, rest))
  {
    var ts := Print(e, PRIMARY) + rest;
    assert ts[1..] == Print(e, 0) + ([RParen] + rest);
    assert ([RParen] + rest)[1..] == rest;
    ParenStep(ts, e, [RParen] + rest);
  }

  lemma ParenStep(ts: seq<Tok>, e: Expr, rest: seq<Tok>)
    requires At(ts, LParen) && Parse(0, ts[1..]) == Some((e, rest)) && At(rest, RParen)
    ensures Parse(PRIMARY, ts) == Some((e, rest[1..]))
  {
  }

  lemma {:induction false} ParseUnary(e: Expr, op: Op, x: Expr, rest: seq<Tok>)
    requires e == Unary(op, x) && WellFormed(e) && Stops(rest, POSTFIX)
    ensures Parse(UNARY, Print(e, UNARY) + rest) == Some((e, rest))
    decreases e, 1, 0
  {
    ParsePrint(UNARY, x, rest);
    PrintUnary(op, x, rest);
    UnaryStep(op, Print(x, UNARY) + rest, x, rest);
  }

  lemma PrintUnary(op: Op, x: Expr, rest: seq<Tok>)
    ensures Print(Unary(op, x), UNARY) + rest == [Sym(op)] + (Print(x, UNARY) + rest)
  {
    assert Print(Unary(op, x), UNARY) == Bare(Unary(op, x)) == [Sym(op)] + Print(x, UNARY);
  }

  lemma UnaryStep(op: Op, ts: seq<Tok>, x: Expr, rest: seq<Tok>)
    requires Prefix(op) && Parse(UNARY, ts) == Some((x, rest))
    ensures Parse(UNARY, [Sym(op)] + ts) == Some((Unary(op, x), rest))
  {
    assert ([Sym(op)] + ts)[1..] == ts;
  }

  lemma {:induction false} ParseBinary(e: Expr, op: Op, left: Expr, right: Expr, rest: seq<Tok>)
    requires e == Binary(op, left, right) && WellFormed(e) && Stops(rest, Layer(op) + 1)
    ensures Parse(Layer(op), Print(e, Layer(op)) + rest) == Tail(Layer(op), e, rest)
    decreases e, 1, 0
  {
    var layer, behind := Layer(op), Print(right, Layer(op) + 1) + rest;
    ParsePrint(layer, left, [Sym(op)] + behind);
    ParseAlone(layer + 1, right, rest);
    PrintBinary(op, left, right, rest);
    TailMore(layer, left, op, behind, right, rest);
  }

  lemma RegroupLeft(a: seq<Tok>, b: seq<Tok>, c: seq<Tok>, d: seq<Tok>)
    ensures a + b + c + d == a + (b + (c + d))
  {
  }

  lemma PrintBinary(op: Op, left: Expr, right: Expr, rest: seq<Tok>)
    ensures Print(Binary(op, left, right), Layer(op)) + rest
         == Print(left, Layer(op)) + ([Sym(op)] + (Print(right, Layer(op) + 1) + rest))
  {
    var e, l, r := Binary(op, left, right), Print(left, Layer(op)), Print(right, Layer(op) + 1);
    assert Print(e, Layer(op)) == Bare(e) == l + [Sym(op)] + r;
    RegroupLeft(l, [Sym(op)], r, rest);
  }

  lemma TailMore(layer: nat, left: Expr, op: Op, ts: seq<Tok>, right: Expr, rest: seq<Tok>)
    requires layer == Layer(op) < UNARY && Parse(layer + 1, ts) == Some((right, rest))
    ensures Tail(layer, left, [Sym(op)] + ts) == Tail(layer, Binary(op, left, right), rest)
  {
    assert ([Sym(op)] + ts)[1..] == ts;
  }

  lemma {:induction false} ParsePostfix(e: Expr, rest: seq<Tok>)
    requires WellFormed(e) && Rank(e) == POSTFIX
    ensures Parse(POSTFIX, Print(e, POSTFIX) + rest) == Suffixes(e, rest)
    decreases e, 1, 1
  {
    match e
    case Call(f, args) => ParseCalled(e, f, args, rest);
    case Index(o, i) => ParseIndexed(e, o, i, rest);
    case Member(o, name) =>
      var behind := [Dot, TIdent(name)] + rest;
      assert Print(e, POSTFIX) + rest == Print(o, POSTFIX) + behind;
      ParsePrint(POSTFIX, o, behind);
      assert behind[2..] == rest;
  }

  /** Bracketed tokens behind others, and what follows. */
  lemma Trailing(whole: seq<Tok>, head: seq<Tok>, open: Tok, inner: seq<Tok>, close: Tok, rest: seq<Tok>)
    requires whole == head + [open] + inner + [close]
    ensures whole + rest == head + ([open] + (inner + ([close] + rest)))
    ensures ([close] + rest)[1..] == rest && ([open] + (inner + ([close] + rest)))[1..] == inner + ([close] + rest)
  {
  }

  lemma {:induction false} ParseCalled(e: Expr, f: Expr, args: seq<Expr>, rest: seq<Tok>)
    requires e == Call(f, args) && WellFormed(e)
    ensures Parse(POSTFIX, Print(e, POSTFIX) + rest) == Suffixes(e, rest)
    decreases e, 1, 0
  {
    var end := [RParen] + rest;
    var behind := [LParen] + (PrintAll(e, args) + end);
    assert Print(e, POSTFIX) == Print(f, POSTFIX) + [LParen] + PrintAll(e, args) + [RParen];
    Trailing(Print(e, POSTFIX), Print(f, POSTFIX), LParen, PrintAll(e, args), RParen, rest);
    ParsePrint(POSTFIX, f, behind);
    if args == [] {
      assert behind[1..] == end && behind[2..] == rest;
    } else {
      ArgsParsed(e, args, end);
      StartsAll(e, args, end);
      CallSuffix(f, args, behind, end);
    }
  }

  lemma {:induction false} ParseIndexed(e: Expr, o: Expr, i: Expr, rest: seq<Tok>)
    requires e == Index(o, i) && WellFormed(e)
    ensures Parse(POSTFIX, Print(e, POSTFIX) + rest) == Suffixes(e, rest)
    decreases e, 1, 0
  {
    var end := [RBrack] + rest;
    var behind := [LBrack] + (Print(i, 0) + end);
    assert Print(e, POSTFIX) == Print(o, POSTFIX) + [LBrack] + Print(i, 0) + [RBrack];
    Trailing(Print(e, POSTFIX), Print(o, POSTFIX), LBrack, Print(i, 0), RBrack, rest);
    ParsePrint(POSTFIX, o, behind);
    ParseAlone(0, i, end);
    IndexSuffix(o, i, behind, end);
  }

  lemma CallSuffix(f: Expr, args: seq<Expr>, ts: seq<Tok>, rest: seq<Tok>)
    requires At(ts, LParen) && !At(ts[1..], RParen) && ParseArgs(ts[1..]) == Some((args, rest)) && At(rest, RParen)
    ensures Suffixes(f, ts) == Suffixes(Call(f, args), rest[1..])
  {
  }

  lemma IndexSuffix(o: Expr, i: Expr, ts: seq<Tok>, rest: seq<Tok>)
    requires At(ts, LBrack) && Parse(0, ts[1..]) == Some((i, rest)) && At(rest, RBrack)
    ensures Suffixes(o, ts) == Suffixes(Index(o, i), rest[1..])
  {
  }

  /** The parts of a printed list: smaller expressions, all well formed. */
  ghost predicate Parts(whole: Expr, es: seq<Expr>) {
    forall i {:trigger es[i]} :: 0 <= i < |es| ==> es[i] < whole && WellFormed(es[i])
  }

  lemma PrintAllMore(whole: Expr, es: seq<Expr>, rest: seq<Tok>)
    requires |es| > 1 && Parts(whole, es)
    ensures PrintAll(whole, es) + rest == Print(es[0], 0) + ([Comma] + (PrintAll(whole, es[1..]) + rest))
  {
  }

  lemma StartsAll(whole: Expr, es: seq<Expr>, rest: seq<Tok>)
    requires es != [] && Parts(whole, es)
    ensures PrintAll(whole, es) + rest != [] && Starter((PrintAll(whole, es) + rest)[0])
  {
    PrintStarts(es[0], 0);
  }

  lemma {:induction false} ArgsParsed(whole: Expr, es: seq<Expr>, rest: seq<Tok>)
    requires es != [] && Parts(whole, es) && Stops(rest, 0) && !At(rest, Comma)
    ensures ParseArgs(PrintAll(whole, es) + rest) == Some((es, rest))
    decreases whole, 0, |es|
  {
    if |es| == 1 {
      ParseAlone(0, es[0], rest);
      assert es == [es[0]];
    } else {
      var behind := [Comma] + (PrintAll(whole, es[1..]) + rest);
      PrintAllMore(whole, es, rest);
      ParseAlone(0, es[0], behind);
      ArgsParsed(whole, es[1..], rest);
      assert behind[1..] == PrintAll(whole, es[1..]) + rest;
      assert es == [es[0]] + es[1..];
    }
  }

  lemma ElemsMore(ts: seq<Tok>, e: Expr, behind: seq<Tok>, es: seq<Expr>, rest: seq<Tok>)
    requires Parse(0, ts) == Some((e, behind)) && At(behind, Comma) && !At(behind[1..], RBrack)
    requires ParseElems(behind[1..]) == Some((es, rest))
    ensures ParseElems(ts) == Some(([e] + es, rest))
  {
  }

  lemma {:induction false} ElemsParsed(whole: Expr, es: seq<Expr>, rest: seq<Tok>)
    requires es != [] && Parts(whole, es)
    ensures ParseElems(PrintAll(whole, es) + ([RBrack] + rest)) == Some((es, rest))
    decreases whole, 0, |es|
  {
    if |es| == 1 {
      ParseAlone(0, es[0], [RBrack] + rest);
      assert es == [es[0]] && ([RBrack] + rest)[1..] == rest;
    } else {
      var more := PrintAll(whole, es[1..]) + ([RBrack] + rest);
      PrintAllMore(whole, es, [RBrack] + rest);
      ParseAlone(0, es[0], [Comma] + more);
      StartsAll(whole, es[1..], [RBrack] + rest);
      ElemsParsed(whole, es[1..], rest);
      assert ([Comma] + more)[1..] == more;
      ElemsMore(PrintAll(whole, es) + ([RBrack] + rest), es[0], [Comma] + more, es[1..], rest);
      assert es == [es[0]] + es[1..];
    }
  }

  lemma EntriesStep(ts: seq<Tok>, key: string, v: Expr, behind: seq<Tok>)
    requires |ts| > 2 && ts[0] == TStr(key) && ts[1] == Colon && Parse(0, ts[2..]) == Some((v, behind))
    ensures At(behind, RBrace) ==> ParseEntries(ts) == Some(([key], [v], behind[1..]))
    ensures At(behind, Comma) && !At(behind[1..], RBrace) && ParseEntries(behind[1..]).Some? ==>
      var (ks, vs, rest) := ParseEntries(behind[1..]).value;
      ParseEntries(ts) == Some(([key] + ks, [v] + vs, rest))
  {
    assert At(ts[1..], Colon);
  }

  lemma FrontParts(key: string, first: seq<Tok>, more: seq<Tok>)
    requires first != []
    ensures var ts := [TStr(key), Colon] + first + more;
      |ts| > 2 && ts[0] == TStr(key) && ts[1] == Colon && ts[2..] == first + more
  {
  }

  lemma {:induction false} EntriesParsed(whole: Expr, ks: seq<string>, vs: seq<Expr>, rest: seq<Tok>)
    requires vs != [] && |ks| == |vs| && Parts(whole, vs)
    ensures ParseEntries(PrintEntries(whole, ks, vs) + ([RBrace] + rest)) == Some((ks, vs, rest))
    decreases whole, 0, |vs|, 1
  {
    if |vs| == 1 {
      OneEntryParsed(whole, ks, vs, rest);
    } else {
      EntriesParsed(whole, ks[1..], vs[1..], rest);
      MoreEntriesParsed(whole, ks, vs, rest);
    }
  }

  lemma {:induction false} OneEntryParsed(whole: Expr, ks: seq<string>, vs: seq<Expr>, rest: seq<Tok>)
    requires |ks| == |vs| == 1 && Parts(whole, vs)
    ensures ParseEntries(PrintEntries(whole, ks, vs) + ([RBrace] + rest)) == Some((ks, vs, rest))
    decreases whole, 0, |vs|, 0
  {
    PrintStarts(vs[0], 0);
    ParseAlone(0, vs[0], [RBrace] + rest);
    LastEntry(ks[0], vs[0], Print(vs[0], 0), rest);
    assert ks == [ks[0]] && vs == [vs[0]];
  }

  lemma {:induction false} MoreEntriesParsed(whole: Expr, ks: seq<string>, vs: seq<Expr>, rest: seq<Tok>)
    requires |ks| == |vs| > 1 && Parts(whole, vs)
    requires ParseEntries(PrintEntries(whole, ks[1..], vs[1..]) + ([RBrace] + rest)) == Some((ks[1..], vs[1..], rest))
    ensures ParseEntries(PrintEntries(whole, ks, vs) + ([RBrace] + rest)) == Some((ks, vs, rest))
    decreases whole, 0, |vs|, 0
  {
    var end, tail := [RBrace] + rest, PrintEntries(whole, ks[1..], vs[1..]);
    PrintStarts(vs[0], 0);
    EntriesHead(whole, ks[1..], vs[1..], end);
    ParseAlone(0, vs[0], [Comma] + (tail + end));
    EntryBefore(ks[0], vs[0], Print(vs[0], 0), tail, end, ks[1..], vs[1..], rest);
    assert ks == [ks[0]] + ks[1..] && vs == [vs[0]] + vs[1..];
  }

  lemma EntriesHead(whole: Expr, ks: seq<string>, vs: seq<Expr>, end: seq<Tok>)
    requires vs != [] && |ks| == |vs| && Parts(whole, vs)
    ensures PrintEntries(whole, ks, vs) + end != [] && (PrintEntries(whole, ks, vs) + end)[0] == TStr(ks[0])
  {
  }

  lemma LastEntry(key: string, v: Expr, first: seq<Tok>, rest: seq<Tok>)
    requires first != [] && Parse(0, first + ([RBrace] + rest)) == Some((v, [RBrace] + rest))
    ensures ParseEntries([TStr(key), Colon] + first + ([RBrace] + rest)) == Some(([key], [v], rest))
  {
    FrontParts(key, first, [RBrace] + rest);
    assert ([RBrace] + rest)[1..] == rest;
    EntriesStep([TStr(key), Colon] + first + ([RBrace] + rest), key, v, [RBrace] + rest);
  }

  lemma EntryBefore(key: string, v: Expr, first: seq<Tok>, tail: seq<Tok>, end: seq<Tok>, ks: seq<string>,
                    vs: seq<Expr>, rest: seq<Tok>)
    requires first != [] && Parse(0, first + ([Comma] + (tail + end))) == Some((v, [Comma] + (tail + end)))
    requires tail + end != [] && (tail + end)[0].TStr? && ParseEntries(tail + end) == Some((ks, vs, rest))
    ensures ParseEntries([TStr(key), Colon] + first + ([Comma] + tail) + end) == Some(([key] + ks, [v] + vs, rest))
  {
    var behind := [Comma] + (tail + end);
    FrontParts(key, first, behind);
    assert behind[1..] == tail + end;
    EntriesStep([TStr(key), Colon] + first + behind, key, v, behind);
    Regroup([TStr(key), Colon] + first, [Comma], tail, end);
  }

  lemma Regroup(a: seq<Tok>, b: seq<Tok>, c: seq<Tok>, d: seq<Tok>)
    ensures a + (b + c) + d == a + (b + (c + d))
  {
  }

  lemma {:induction false} ParsePrimary(e: Expr, rest: seq<Tok>)
    requires WellFormed(e) && Rank(e) == PRIMARY
    ensures Parse(PRIMARY, Print(e, PRIMARY) + rest) == Some((e, rest))
    decreases e, 1, 0
  {
    if e.ListLit? {
      ParseList(e, rest);
    } else if e.MapLit? {
      ParseMap(e, rest);
    } else {
      assert |Bare(e)| == 1;
      assert (Bare(e) + rest)[1..] == rest;
    }
  }

  /** Tokens between brackets, and what follows. */
  lemma Enclosed(whole: seq<Tok>, open: Tok, inner: seq<Tok>, close: Tok, rest: seq<Tok>)
    requires whole == [open] + inner + [close]
    ensures (whole + rest)[0] == open && (whole + rest)[1..] == inner + ([close] + rest)
    ensures inner == [] ==> (whole + rest)[1..] == [close] + rest && (whole + rest)[2..] == rest
  {
    assert (whole + rest)[1..] == inner + ([close] + rest);
    if inner == [] { assert (whole + rest)[2..] == rest; }
  }

  lemma {:induction false} ParseList(e: Expr, rest: seq<Tok>)
    requires WellFormed(e) && e.ListLit?
    ensures Primary(Print(e, PRIMARY) + rest) == Some((e, rest))
    decreases e, 0, |e.elems| + 1
  {
    var ts, behind := Print(e, PRIMARY) + rest, PrintAll(e, e.elems) + ([RBrack] + rest);
    assert Print(e, PRIMARY) == Bare(e) == [LBrack] + PrintAll(e, e.elems) + [RBrack];
    Enclosed(Print(e, PRIMARY), LBrack, PrintAll(e, e.elems), RBrack, rest);
    if e.elems == [] {
      assert ts[2..] == rest;
    } else {
      StartsAll(e, e.elems, [RBrack] + rest);
      ElemsParsed(e, e.elems, rest);
    }
  }

  lemma {:induction false} ParseMap(e: Expr, rest: seq<Tok>)
    requires WellFormed(e) && e.MapLit?
    ensures Primary(Print(e, PRIMARY) + rest) == Some((e, rest))
    decreases e, 0, |e.vals| + 1, 0
  {
    var ts, behind := Print(e, PRIMARY) + rest, PrintEntries(e, e.keys, e.vals) + ([RBrace] + rest);
    assert Print(e, PRIMARY) == Bare(e) == [LBrace] + PrintEntries(e, e.keys, e.vals) + [RBrace];
    Enclosed(Print(e, PRIMARY), LBrace, PrintEntries(e, e.keys, e.vals), RBrace, rest);
    if e.keys == [] {
      assert ts[2..] == rest;
    } else {
      EntriesHead(e, e.keys, e.vals, [RBrace] + rest);
      EntriesParsed(e, e.keys, e.vals, rest);
    }
  }

  /** Parsing a printed expression gives it back and takes exactly its tokens. */
  lemma RoundTrip(e: Expr, rest: seq<Tok>)
    requires WellFormed(e) && Stops(rest, 0)
    ensures Parse(0, Print(e, 0) + rest) == Some((e, rest))
  {
    ParsePrint(0, e, rest);
  }

  /** So different expressions are printed differently. */
  lemma PrintInjective(e: Expr, f: Expr)
    requires WellFormed(e) && WellFormed(f) && Print(e, 0) == Print(f, 0)
    ensures e == f
  {
    RoundTrip(e, []);
    RoundTrip(f, []);
  }

  // ---------- The cursor ----------

  class Cursor {
    const toks: seq<Tok>
    var i: nat

    ghost predicate Valid()
      reads this
    {
      i <= |toks|
    }

    ghost function Ahead(): seq<Tok>
      requires Valid()
      reads this
    {
      toks[i..]
    }

    /** The outcome agrees with `p`: the same expression, and the cursor before the tokens behind it. */
    ghost predicate Matches(p: Parsed, r: Option<Expr>)
      requires Valid()
      reads this
    {
      match p
      case None => r == None
      case Some((e, rest)) => r == Some(e) && Ahead() == rest
    }

    constructor (toks: seq<Tok>)
      ensures Valid() && this.toks == toks && i == 0
    {
      this.toks, i := toks, 0;
    }

    predicate Sees(t: Tok)
      requires Valid()
      reads this
      ensures Sees(t) <==> At(Ahead(), t)
    {
      i < |toks| && toks[i] == t
    }

    /** The six binary layers: operands of the next layer, joined to the left. */
    method ParseLayer(layer: nat) returns (r: Option<Expr>)
      requires Valid() && layer < UNARY
      modifies this
      ensures Valid() && i >= old(i) && Matches(Parse(layer, old(Ahead())), r)
      decreases |toks| - i, PRIMARY + 1 - layer, 0
    {
      r := ParseNext(layer + 1);
      if r == None { return; }
      var left := r.value;
      ghost var first, behind := left, Ahead();
      while i < |toks| && toks[i].Sym? && Layer(toks[i].op) == layer
        invariant Valid() && i > old(i)
        invariant Tail(layer, left, Ahead()) == Tail(layer, first, behind)
        decreases |toks| - i
      {
        var op := toks[i].op;
        assert Ahead()[1..] == toks[i + 1..];
        i := i + 1;
        r := ParseNext(layer + 1);
        if r == None { return; }
        left := Binary(op, left, r.value);
      }
      r := Some(left);
    }

    /** The layer below. */
    method ParseNext(layer: nat) returns (r: Option<Expr>)
      requires Valid() && 0 < layer <= UNARY
      modifies this
      ensures Valid() && i >= old(i) && Matches(Parse(layer, old(Ahead())), r)
      ensures r.Some? ==> i > old(i)
      decreases |toks| - i, PRIMARY + 1 - layer, 1
    {
      ghost var ts := Ahead();
      if layer < UNARY {
        r := ParseLayer(layer);
      } else {
        r := ParseUnary();
      }
      assert r.Some? ==> |Ahead()| < |ts|;
    }

    method ParseUnary() returns (r: Option<Expr>)
      requires Valid()
      modifies this
      ensures Valid() && i >= old(i) && Matches(Parse(UNARY, old(Ahead())), r)
      decreases |toks| - i, PRIMARY + 1 - UNARY, 0
    {
      if i < |toks| && toks[i].Sym? && Prefix(toks[i].op) {
        var op := toks[i].op;
        assert Ahead()[1..] == toks[i + 1..];
        i := i + 1;
        var x := ParseUnary();
        if x == None { return None; }
        return Some(Unary(op, x.value));
      }
      r := ParsePostfix();
    }

    method ParsePostfix() returns (r: Option<Expr>)
      requires Valid()
      modifies this
      ensures Valid() && i >= old(i) && Matches(Parse(POSTFIX, old(Ahead())), r)
      decreases |toks| - i, PRIMARY + 1 - POSTFIX, 0
    {
      ghost var ts := Ahead();
      r := ParsePrimary();
      if r == None { return; }
      var e := r.value;
      ghost var first, behind := e, Ahead();
      assert |behind| < |ts| && Parse(POSTFIX, ts) == Suffixes(first, behind);
      while true
        invariant Valid() && i > old(i)
        invariant Suffixes(e, Ahead()) == Suffixes(first, behind)
        decreases |toks| - i
      {
        if Sees(LParen) {
          r := ParseCall(e);
        } else if Sees(LBrack) {
          r := ParseIndex(e);
        } else if Sees(Dot) {
          r := ParseMember(e);
        } else {
          return Some(e);
        }
        if r == None { return; }
        e := r.value;
      }
    }

    /** One call suffix. */
    method ParseCall(e: Expr) returns (r: Option<Expr>)
      requires Valid() && Sees(LParen)
      modifies this
      ensures Valid() && i >= old(i)
      ensures r == None ==> Suffixes(e, old(Ahead())) == None
      ensures r.Some? ==> i > old(i) && Suffixes(e, old(Ahead())) == Suffixes(r.value, Ahead())
      decreases |toks| - i, 0, 0
    {
      ghost var ts := Ahead();
      i := i + 1;
      assert ts[1..] == Ahead();
      if Sees(RParen) {
        i := i + 1;
        assert ts[2..] == Ahead();
        return Some(Call(e, []));
      }
      var args := ParseArguments();
      if args == None { return None; }
      if !Sees(RParen) { return None; }
      i := i + 1;
      assert ParseArgs(ts[1..]).value.1[1..] == Ahead();
      return Some(Call(e, args.value));
    }

    method ParseArguments() returns (r: Option<seq<Expr>>)
      requires Valid()
      modifies this
      ensures Valid() && i >= old(i)
      ensures match ParseArgs(old(Ahead())) {
        case None => r == None
        case Some((es, rest)) => r == Some(es) && Ahead() == rest
      }
      decreases |toks| - i, PRIMARY + 2, 0
    {
      var args: seq<Expr> := [];
      ghost var ts := Ahead();
      PrependNone(ParseArgs(ts));
      while true
        invariant Valid() && i >= old(i)
        invariant ParseArgs(ts) == Prepend(args, ParseArgs(Ahead()))
        decreases |toks| - i
      {
        ghost var now := Ahead();
        var a := ParseLayer(0);
        if a == None { return None; }
        args := args + [a.value];
        if !Sees(Comma) { return Some(args); }
        assert Ahead()[1..] == toks[i + 1..];
        i := i + 1;
        PrependOne(args[..|args| - 1], a.value, ParseArgs(Ahead()));
        assert args[..|args| - 1] + [a.value] == args;
      }
    }

    /** One index suffix. */
    method ParseIndex(e: Expr) returns (r: Option<Expr>)
      requires Valid() && Sees(LBrack)
      modifies this
      ensures Valid() && i >= old(i)
      ensures r == None ==> Suffixes(e, old(Ahead())) == None
      ensures r.Some? ==> i > old(i) && Suffixes(e, old(Ahead())) == Suffixes(r.value, Ahead())
      decreases |toks| - i, 0, 0
    {
      ghost var ts := Ahead();
      i := i + 1;
      assert ts[1..] == Ahead();
      var idx := ParseLayer(0);
      if idx == None { return None; }
      if !Sees(RBrack) { return None; }
      i := i + 1;
      assert Parse(0, ts[1..]).value.1[1..] == Ahead();
      return Some(Index(e, idx.value));
    }

    /** One member suffix. */
    method ParseMember(e: Expr) returns (r: Option<Expr>)
      requires Valid() && Sees(Dot)
      modifies this
      ensures Valid() && i >= old(i)
      ensures r == None ==> Suffixes(e, old(Ahead())) == None
      ensures r.Some? ==> i > old(i) && Suffixes(e, old(Ahead())) == Suffixes(r.value, Ahead())
    {
      ghost var ts := Ahead();
      i := i + 1;
      if i == |toks| || !toks[i].TIdent? {
        return None;
      }
      var name := toks[i].name;
      i := i + 1;
      assert ts[2..] == Ahead();
      return Some(Member(e, name));
    }

    method ParsePrimary() returns (r: Option<Expr>)
      requires Valid()
      modifies this
      ensures Valid() && i >= old(i) && Matches(Primary(old(Ahead())), r)
      decreases |toks| - i, 0, 0
    {
      if i == |toks| { return None; }
      var t := toks[i];
      assert Ahead()[1..] == toks[i + 1..];
      i := i + 1;
      match t {
        case TNum(n) => r := Some(Num(n));
        case TStr(s) => r := Some(Str(s));
        case TTrue => r := Some(True);
        case TFalse => r := Some(False);
        case TNull => r := Some(Null);
        case TIdent(name) => r := Some(Ident(name));
        case LParen =>
          r := ParseLayer(0);
          if r == None { return; }
          if !Sees(RParen) { return None; }
          assert Ahead()[1..] == toks[i + 1..];
          i := i + 1;
        case LBrack => r := ParseList();
        case LBrace => r := ParseMapLit();
        case _ => r := None;
      }
    }

    /** parseList, behind the opening bracket. */
    method ParseList() returns (r: Option<Expr>)
      requires Valid() && i > 0 && toks[i - 1] == LBrack
      modifies this
      ensures Valid() && i >= old(i) && Matches(Primary(old(toks[i - 1..])), r)
      decreases |toks| - i, PRIMARY + 2, 0
    {
      ghost var ts, inner := toks[i - 1..], Ahead();
      assert ts[1..] == inner;
      if Sees(RBrack) {
        i := i + 1;
        assert ts[2..] == Ahead();
        return Some(ListLit([]));
      }
      var es: seq<Expr> := [];
      PrependNone(ParseElems(inner));
      while true
        invariant Valid() && i >= old(i)
        invariant ParseElems(inner) == Prepend(es, ParseElems(Ahead()))
        decreases |toks| - i
      {
        ghost var now, before := Ahead(), es;
        var e := ParseLayer(0);
        if e == None { return None; }
        es := es + [e.value];
        var more := Separator(RBrack);
        if more == None { return None; }
        if !more.value { return Some(ListLit(es)); }
        PrependOne(before, e.value, ParseElems(Ahead()));
      }
    }

    /** Behind an item: whether another one follows, or the closing token came; nothing else may. */
    method Separator(close: Tok) returns (more: Option<bool>)
      requires Valid() && close != Comma
      modifies this
      ensures Valid() && i >= old(i)
      ensures var ts := old(Ahead());
        if At(ts, Comma) then
          if At(ts[1..], close) then more == Some(false) && Ahead() == ts[2..]
          else more == Some(true) && Ahead() == ts[1..]
        else if At(ts, close) then more == Some(false) && Ahead() == ts[1..]
        else more == None
    {
      if Sees(Comma) {
        i := i + 1;
        DropDrop(toks, i - 1, 1);
        if Sees(close) {
          i := i + 1;
          DropDrop(toks, i - 2, 2);
          return Some(false);
        }
        return Some(true);
      }
      if !Sees(close) { return None; }
      i := i + 1;
      DropDrop(toks, i - 1, 1);
      return Some(false);
    }

    /** One map entry. */
    method ParseOne() returns (r: Option<(string, Expr)>)
      requires Valid()
      modifies this
      ensures Valid() && i >= old(i)
      ensures match ParseEntry(old(Ahead())) {
        case None => r == None
        case Some((key, v, rest)) => r == Some((key, v)) && Ahead() == rest
      }
      decreases |toks| - i, PRIMARY + 2, 0
    {
      ghost var now := Ahead();
      var key := KeyOf(toks[i..]);
      if key == None { return None; }
      i := i + 1;
      assert now[1..] == Ahead();
      if !Sees(Colon) { return None; }
      i := i + 1;
      assert now[2..] == Ahead();
      var v := ParseLayer(0);
      if v == None { return None; }
      return Some((key.value, v.value));
    }

    /** parseMap, behind the opening brace. */
    method ParseMapLit() returns (r: Option<Expr>)
      requires Valid() && i > 0 && toks[i - 1] == LBrace
      modifies this
      ensures Valid() && i >= old(i) && Matches(Primary(old(toks[i - 1..])), r)
      decreases |toks| - i, PRIMARY + 4, 0
    {
      ghost var ts, inner := toks[i - 1..], Ahead();
      assert ts[1..] == inner;
      if Sees(RBrace) {
        i := i + 1;
        assert ts[2..] == Ahead();
        return Some(MapLit([], []));
      }
      r := ParseEntryList();
    }

    /** The entries and the closing brace. */
    method ParseEntryList() returns (r: Option<Expr>)
      requires Valid()
      modifies this
      ensures Valid() && i >= old(i)
      ensures match ParseEntries(old(Ahead())) {
        case None => r == None
        case Some((ks, vs, rest)) => r == Some(MapLit(ks, vs)) && Ahead() == rest
      }
      decreases |toks| - i, PRIMARY + 3, 0
    {
      ghost var inner := Ahead();
      var ks: seq<string>, vs: seq<Expr> := [], [];
      NoEntries(ParseEntries(inner));
      while true
        invariant Valid() && i >= old(i)
        invariant ParseEntries(inner) == PrependEntries(ks, vs, ParseEntries(Ahead()))
        decreases |toks| - i
      {
        var entry := ParseOne();
        if entry == None { return None; }
        var (key, v) := entry.value;
        ghost var ks0, vs0 := ks, vs;
        ks, vs := ks + [key], vs + [v];
        var more := Separator(RBrace);
        if more == None { return None; }
        if !more.value { return Some(MapLit(ks, vs)); }
        PrependEntry(ks0, vs0, key, v, ParseEntries(Ahead()));
      }
    }
  }

  lemma DropDrop(ts: seq<Tok>, a: nat, b: nat)
    requires a + b <= |ts|
    ensures ts[a..][b..] == ts[a + b..]
  {
  }

  function Prepend(es: seq<Expr>, p: ParsedAll): ParsedAll {
    match p
    case None => None
    case Some((fs, rest)) => Some((es + fs, rest))
  }

  function PrependEntries(ks: seq<string>, vs: seq<Expr>, p: ParsedMap): ParsedMap {
    match p
    case None => None
    case Some((ks', vs', rest)) => Some((ks + ks', vs + vs', rest))
  }

  lemma PrependNone(p: ParsedAll)
    ensures Prepend([], p) == p
  {
    if p.Some? { assert [] + p.value.0 == p.value.0; }
  }

  lemma NoEntries(p: ParsedMap)
    ensures PrependEntries([], [], p) == p
  {
    if p.Some? { assert [] + p.value.0 == p.value.0 && [] + p.value.1 == p.value.1; }
  }

  lemma PrependOne(es: seq<Expr>, e: Expr, p: ParsedAll)
    ensures Prepend(es + [e], p) == Prepend(es, Prepend([e], p))
  {
    if p.Some? { assert es + [e] + p.value.0 == es + ([e] + p.value.0); }
  }

  lemma PrependEntry(ks: seq<string>, vs: seq<Expr>, k: string, v: Expr, p: ParsedMap)
    ensures PrependEntries(ks + [k], vs + [v], p) == PrependEntries(ks, vs, PrependEntries([k], [v], p))
  {
    if p.Some? {
      assert ks + [k] + p.value.0 == ks + ([k] + p.value.0);
      assert vs + [v] + p.value.1 == vs + ([v] + p.value.1);
    }
  }
}
