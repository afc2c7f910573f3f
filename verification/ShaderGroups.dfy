/**
 Walks that end at no parenthesis read groups flat: whichever closing parenthesis a group ends at, the same text is
 written (libobs-opengl/gl-shaderparser.c). So a product that leaves its last argument early does no harm inside plain
 groups, calls and texture coordinates of such a walk; inside `saturate` it does, and inside another product it does if
 anything follows.
 */
module ShaderGroups {
  import opened Bytes
  import opened ShaderTranslator

  // ---------- Paths of the loop ----------

  predicate Through(end: string) { end == "," || end == "}" }

  /** The loop gets from one place to another without meeting `end`, whatever else it may be to end at. */
  ghost predicate Reaches(g: Shader, end: string, ts: seq<Token>, s: State, there: seq<Token>, then': State)
    decreases |ts|
  {
    || (ts == there && s == then')
    || (&& ts != [] && ts[0].text != end && (ts[0].text == ")" ==> ts[0] == CLOSE)
        && LoopToken(g, ts, s).rest != []
        && Reaches(g, end, LoopToken(g, ts, s).rest[1..], LoopToken(g, ts, s).state, there, then'))
  }

  lemma {:induction false} ReachesThrough(g: Shader, end: string, a: seq<Token>, sa: State, b: seq<Token>, sb: State,
                                          c: seq<Token>, sc: State)
    requires Reaches(g, end, a, sa, b, sb) && Reaches(g, end, b, sb, c, sc)
    ensures Reaches(g, end, a, sa, c, sc)
    decreases |a|
  {
    if a == b && sa == sb {
    } else {
      var w := LoopToken(g, a, sa);
      ReachesThrough(g, end, w.rest[1..], w.state, b, sb, c, sc);
    }
  }

  /** A walk to that end goes along. */
  lemma {:induction false} WalksAlong(g: Shader, end: string, a: seq<Token>, sa: State, b: seq<Token>, sb: State)
    requires Reaches(g, end, a, sa, b, sb)
    ensures Loop(g, a, end, sa) == Loop(g, b, end, sb)
    decreases |a|
  {
    if a == b && sa == sb {
    } else {
      var w := LoopToken(g, a, sa);
      WalksAlong(g, end, w.rest[1..], w.state, b, sb);
    }
  }

  /** A walk to a closing parenthesis stops on the way, if not before. */
  lemma {:induction false} StopsOnTheWay(g: Shader, end: string, a: seq<Token>, sa: State, rest: seq<Token>, sb: State)
    requires Reaches(g, end, a, sa, [CLOSE] + rest, sb)
    ensures var w := Loop(g, a, ")", sa);
      w.ok && w.rest != [] && w.rest[0] == CLOSE && Reaches(g, end, w.rest, w.state, [CLOSE] + rest, sb)
    decreases |a|
  {
    if At(a, ")") {
    } else {
      var w := LoopToken(g, a, sa);
      StopsOnTheWay(g, end, w.rest[1..], w.state, rest, sb);
    }
  }

  lemma {:induction false} NotLonger(g: Shader, end: string, a: seq<Token>, sa: State, b: seq<Token>, sb: State)
    requires Reaches(g, end, a, sa, b, sb)
    ensures |b| <= |a| && (|b| == |a| ==> a == b && sa == sb)
    decreases |a|
  {
    if a == b && sa == sb {
    } else {
      var w := LoopToken(g, a, sa);
      NotLonger(g, end, w.rest[1..], w.state, b, sb);
    }
  }

  lemma StepPlain(g: Shader, end: string, t: Token, rest: seq<Token>, s: State)
    requires t.text != end && (t.text == ")" ==> t == CLOSE) && !Opens(t) && (t.kind == Name ==> PlainName(g, t.text))
    ensures Reaches(g, end, [t] + rest, s, rest, s.Say(t.text))
  {
    WordPlain(g, [t] + rest, s);
    assert LoopToken(g, [t] + rest, s) == Walk(s.Say(t.text), [t] + rest, true);
    assert ([t] + rest)[1..] == rest;
  }

  /** Past the parenthesis at which a walk stopped, its text is written, and the path goes on. */
  lemma ClosePassed(g: Shader, end: string, p: seq<Token>, sp: State, rest: seq<Token>, s: State)
    requires Through(end) && p != [] && p[0] == CLOSE && Reaches(g, end, p, sp, [CLOSE] + rest, s)
    ensures Reaches(g, end, p[1..], sp.Say(")"), rest, s.Say(")"))
  {
    StepPlain(g, end, CLOSE, rest, s);
    assert p == [CLOSE] + p[1..];
    if p == [CLOSE] + rest {
      NotLonger(g, end, p, sp, [CLOSE] + rest, s);
      assert p[1..] == rest;
    } else {
      WordPlain(g, p, sp);
      assert LoopToken(g, p, sp) == Walk(sp.Say(")"), p, true);
      ReachesThrough(g, end, p[1..], sp.Say(")"), [CLOSE] + rest, s, rest, s.Say(")"));
    }
  }

  /** A plain group is read flat: its contents, then a closing parenthesis. */
  lemma StepGroup(g: Shader, end: string, ts: seq<Token>, rest: seq<Token>, s: State, after: State)
    requires Through(end) && Reaches(g, end, ts, s.Say("("), [CLOSE] + rest, after)
    ensures Reaches(g, end, [OPEN] + ts, s, rest, after.Say(")"))
  {
    var all, w := [OPEN] + ts, Loop(g, ts, ")", s.Say("("));
    StopsOnTheWay(g, end, ts, s.Say("("), rest, after);
    ContentsFromOpen(g, ts, ")", s);
    assert LoopToken(g, all, s) == Walk(w.state.Say(")"), w.rest, true);
    ClosePassed(g, end, w.rest, w.state, rest, after);
  }

  /** So is one whose own walk reads all of it. */
  lemma StepExactGroup(g: Shader, end: string, ts: seq<Token>, rest: seq<Token>, s: State, after: State)
    requires Through(end) && Loop(g, ts, ")", s.Say("(")) == Walk(after, [CLOSE] + rest, true)
    ensures Reaches(g, end, [OPEN] + ts, s, rest, after.Say(")"))
  {
    ContentsFromOpen(g, ts, ")", s);
    assert LoopToken(g, [OPEN] + ts, s) == Walk(after.Say(")"), [CLOSE] + rest, true);
    assert ([CLOSE] + rest)[1..] == rest;
  }

  lemma StepRenamed(g: Shader, end: string, name: string, rest: seq<Token>, s: State)
    requires Through(end) && Callable(g, name)
    ensures Reaches(g, end, [NameToken(name)] + rest, s, rest, s.Say(Renamed(g, name)))
  {
    var ts := [NameToken(name)] + rest;
    WordRenamed(g, ts, s);
    assert LoopToken(g, ts, s) == Walk(s.Say(Renamed(g, name)), ts, true);
    assert ts[1..] == rest;
  }

  /** A special intrinsic that stopped at a parenthesis. */
  lemma StepSpecial(g: Shader, end: string, name: string, ts: seq<Token>, stop: seq<Token>, s: State, after: State)
    requires Through(end) && !IsEnd(name) && name !in g.types && stop != []
    requires Intrinsic(g, [NameToken(name)] + ts, s) == Walk(after, stop, true)
    ensures Reaches(g, end, [NameToken(name)] + ts, s, stop[1..], after)
  {
    assert LoopToken(g, [NameToken(name)] + ts, s) == Walk(after, stop, true);
  }

  lemma {:induction false} StepSpaces(g: Shader, end: string, ws: seq<Token>, rest: seq<Token>, s: State)
    requires Through(end) && Spaces(ws)
    ensures Reaches(g, end, ws + rest, s, rest, s.Say(Text(ws)))
    decreases |ws|
  {
    if ws == [] {
      assert [] + rest == rest && s.out + "" == s.out;
    } else {
      assert ws + rest == [ws[0]] + (ws[1..] + rest);
      StepPlain(g, end, ws[0], ws[1..] + rest, s);
      StepSpaces(g, end, ws[1..], rest, s.Say(ws[0].text));
      assert s.out + (ws[0].text + Text(ws[1..])) == (s.out + ws[0].text) + Text(ws[1..]);
      ReachesThrough(g, end, ws + rest, s, ws[1..] + rest, s.Say(ws[0].text), rest, s.Say(Text(ws)));
    }
  }

  lemma StepOperator(g: Shader, end: string, op: string, gap: seq<Token>, ts: seq<Token>, s: State)
    requires Through(end) && Operator(op) && Spaces(gap)
    ensures Reaches(g, end, [Token(Other, op)] + (gap + ts), s, ts, s.Say(op).Say(Text(gap)))
  {
    StepPlain(g, end, Token(Other, op), gap + ts, s);
    StepSpaces(g, end, gap, ts, s.Say(op));
    ReachesThrough(g, end, [Token(Other, op)] + (gap + ts), s, gap + ts, s.Say(op), ts, s.Say(op).Say(Text(gap)));
  }

  lemma StepMember(g: Shader, end: string, name: string, rest: seq<Token>, s: State)
    requires Through(end) && PlainName(g, name)
    ensures Reaches(g, end, [DOT] + ([NameToken(name)] + rest), s, rest, s.Say(".").Say(name))
  {
    StepPlain(g, end, DOT, [NameToken(name)] + rest, s);
    StepPlain(g, end, NameToken(name), rest, s.Say("."));
    ReachesThrough(g, end, [DOT] + ([NameToken(name)] + rest), s, [NameToken(name)] + rest, s.Say("."), rest,
                   s.Say(".").Say(name));
  }

  lemma StepIndex(g: Shader, end: string, ts: seq<Token>, rest: seq<Token>, s: State, after: State)
    requires Through(end) && Reaches(g, end, ts, s.Say("["), [RIGHT] + rest, after)
    ensures Reaches(g, end, [LEFT] + ts, s, rest, after.Say("]"))
  {
    StepPlain(g, end, LEFT, ts, s);
    StepPlain(g, end, RIGHT, rest, after);
    ReachesThrough(g, end, [LEFT] + ts, s, ts, s.Say("["), [RIGHT] + rest, after);
    ReachesThrough(g, end, [LEFT] + ts, s, [RIGHT] + rest, after, rest, after.Say("]"));
  }

  lemma StepProduct(g: Shader, end: string, a: seq<Token>, behind: seq<Token>, b: seq<Token>, left: seq<Token>,
                    s: State, open: State, start: State, afterA: State, middle: State, afterB: State)
    requires Fits(g) && Through(end)
    requires open == s.Say("(") && start == open.Say("(") && middle == afterA.Say(") * (")
    requires Loop(g, a, ",", start) == Loop(g, [COMMA] + behind, ",", afterA) && NextToken([COMMA] + behind) == b
    requires Contents(g, b, ")", middle) == Walk(afterB, [CLOSE] + left, true)
    ensures Reaches(g, end, [NameToken("mul")] + ([OPEN] + a), s, left, afterB.Say("))"))
  {
    NextIs(NameToken("mul"), OPEN, a);
    FirstArgument(g, a, COMMA, behind, open, afterA);
    MulCode(g, a, [COMMA] + behind, b, left, s, afterA, afterB);
    StepSpecial(g, end, "mul", [OPEN] + a, [CLOSE] + left, s, afterB.Say("))"));
    assert ([CLOSE] + left)[1..] == left;
  }

  lemma StepMulAdd(g: Shader, end: string, a: seq<Token>, behind: seq<Token>, b: seq<Token>, behind': seq<Token>,
                   c: seq<Token>, left: seq<Token>, s: State, open: State, start: State, afterA: State, middle: State,
                   afterB: State, last: State, afterC: State)
    requires Fits(g) && Through(end) && open == s.Say("(") && start == open.Say("(")
    requires middle == afterA.Say(") * (") && last == afterB.Say(") + (")
    requires Loop(g, a, ",", start) == Loop(g, [COMMA] + behind, ",", afterA) && NextToken([COMMA] + behind) == b
    requires Contents(g, b, ",", middle) == Loop(g, [COMMA] + behind', ",", afterB) && NextToken([COMMA] + behind') == c
    requires Contents(g, c, ")", last) == Walk(afterC, [CLOSE] + left, true)
    ensures Reaches(g, end, [NameToken("mad")] + ([OPEN] + a), s, left, afterC.Say("))"))
  {
    NextIs(NameToken("mad"), OPEN, a);
    FirstArgument(g, a, COMMA, behind, open, afterA);
    LoopEnds(g, behind', COMMA, afterB);
    MadCode(g, a, [COMMA] + behind, b, [COMMA] + behind', c, left, s, afterA, afterB, afterC);
    StepSpecial(g, end, "mad", [OPEN] + a, [CLOSE] + left, s, afterC.Say("))"));
    assert ([CLOSE] + left)[1..] == left;
  }

  lemma StepClamped(g: Shader, end: string, ts: seq<Token>, rest: seq<Token>, s: State, name: State, start: State,
                    after: State)
    requires Fits(g) && Through(end) && name == s.Say("clamp") && start == name.Say("(")
    requires Loop(g, ts, ")", start) == Loop(g, [CLOSE] + rest, ")", after)
    ensures Reaches(g, end, [NameToken("saturate")] + ([OPEN] + ts), s, rest, after.Say(", 0.0, 1.0)"))
  {
    NextIs(NameToken("saturate"), OPEN, ts);
    FirstArgument(g, ts, CLOSE, rest, name, after);
    SaturateCode(g, ts, rest, s, after);
    StepSpecial(g, end, "saturate", [OPEN] + ts, [CLOSE] + rest, s, after.Say(", 0.0, 1.0)"));
    assert ([CLOSE] + rest)[1..] == rest;
  }

  /** A texture, whose coordinate's walk stopped at a parenthesis. */
  lemma StepSample(g: Shader, end: string, t: string, access: Access, coord: seq<Token>, left: seq<Token>, s: State,
                   start: State, after: State)
    requires Fits(g) && Through(end) && Sampled(g, t, access) && start == SampleStart(g, t, access, s)
    requires coord != [] && !coord[0].IsSpace() && Contents(g, coord, ")", start) == Walk(after, [CLOSE] + left, true)
    ensures Reaches(g, end, SampleTokens(t, access, coord), s, left, after.Say(")"))
  {
    SampleCode(g, t, access, coord, left, s, start, after);
    StepSpecial(g, end, t, [DOT] + ([NameToken(Method(access))] + AccessTokens(access, coord)), [CLOSE] + left, s,
                after.Say(")"));
    assert ([CLOSE] + left)[1..] == left;
  }

  /** The coordinate's walk stops on its way, and the walk around goes on from there. */
  lemma SampleOnward(g: Shader, end: string, ts: seq<Token>, s: State, stop: Walk, rest: seq<Token>, after: State)
    requires Through(end) && stop.rest != [] && stop.rest[0] == CLOSE
    requires Reaches(g, end, stop.rest, stop.state, [CLOSE] + rest, after)
    requires Reaches(g, end, ts, s, stop.rest[1..], stop.state.Say(")"))
    ensures Reaches(g, end, ts, s, rest, after.Say(")"))
  {
    ClosePassed(g, end, stop.rest, stop.state, rest, after);
    ReachesThrough(g, end, ts, s, stop.rest[1..], stop.state.Say(")"), rest, after.Say(")"));
  }

  // ---------- Expressions in such a walk ----------

  /** Names and tokens are what they seem, and last arguments fit a walk that does not end at a parenthesis; more is
      asked for only inside `saturate` and the last arguments of `mul` and `mad`, and, in a walk to a comma, of calls
      and textures with several arguments. */
  predicate Free(g: Shader, end: string, e: Expr)
    decreases e
  {
    match e
    case Ident(n) => PlainName(g, n)
    case Number(t) => !IsEnd(t)
    case Spaced(x, ws) => Free(g, end, x) && Spaces(ws)
    case Paren(x) => Free(g, end, x)
    case Binary(op, a, b, gap) => Operator(op) && Free(g, end, a) && Free(g, end, b) && Spaces(gap)
    case Unary(op, x) => Operator(op) && Free(g, end, x)
    case Member(x, n) => Free(g, end, x) && PlainName(g, n)
    case Index(x, i) => Free(g, end, x) && Free(g, end, i)
    case Call(f, args) => Callable(g, f) && (RegularArgs(g, args) || FreeArgs(g, end, args))
    case Product(a, b, gap) => Free(g, ",", a) && Regular(g, b, true) && Spaces(gap) && LastFits(b, false)
    case MulAdd(a, b, c, gap) =>
      Free(g, ",", a) && Free(g, ",", b) && Regular(g, c, true) && Spaces(gap) && LastFits(c, false)
    case Clamped(x) => Regular(g, x, true)
    case Sample(t, access, args) =>
      && Sampled(g, t, access) && args != NoArgs
      && ((RegularArgs(g, args) && !ArgsStartWithParen(args)) || FreeArgs(g, end, args))
  }

  predicate FreeArgs(g: Shader, end: string, args: Args)
    decreases args
  {
    match args
    case NoArgs => true
    case LastArg(e) => Free(g, end, e)
    case MoreArgs(e, gap, rest) => end == "}" && Free(g, end, e) && Spaces(gap) && FreeArgs(g, end, rest)
  }

  lemma {:induction false} RegularIsFree(g: Shader, end: string, e: Expr, closing: bool)
    requires Regular(g, e, closing)
    ensures Free(g, end, e)
    decreases e
  {
    match e
    case Ident(_) =>
    case Number(_) =>
    case Spaced(x, _) => RegularIsFree(g, end, x, closing);
    case Paren(x) => RegularIsFree(g, end, x, true);
    case Binary(_, a, b, _) =>
      RegularIsFree(g, end, a, closing);
      RegularIsFree(g, end, b, closing);
    case Unary(_, x) => RegularIsFree(g, end, x, closing);
    case Member(x, _) => RegularIsFree(g, end, x, closing);
    case Index(x, i) =>
      RegularIsFree(g, end, x, closing);
      RegularIsFree(g, end, i, closing);
    case Product(a, _, _) => RegularIsFree(g, ",", a, false);
    case MulAdd(a, b, _, _) =>
      RegularIsFree(g, ",", a, false);
      RegularIsFree(g, ",", b, false);
    case Sample(_, _, args) =>
      if args.LastArg? {
        RegularIsFree(g, end, args.e, true);
      }
    case _ =>
  }

  lemma {:induction false} FreeFirst(g: Shader, end: string, e: Expr, rest: seq<Token>)
    requires Free(g, end, e)
    ensures Tokens(e, rest)[0] == First(e)
    ensures !First(e).IsSpace() && !IsEnd(First(e).text) && (Opens(First(e)) ==> First(e) == OPEN)
    decreases e
  {
    match e
    case Spaced(x, ws) => FreeFirst(g, end, x, ws + rest);
    case Binary(op, a, b, gap) => FreeFirst(g, end, a, [Token(Other, op)] + (gap + Tokens(b, rest)));
    case Member(x, n) => FreeFirst(g, end, x, [DOT] + ([NameToken(n)] + rest));
    case Index(x, i) => FreeFirst(g, end, x, [LEFT] + Tokens(i, [RIGHT] + rest));
    case _ =>
  }

  // ---------- The walk ----------

  /** In a walk to no parenthesis the expression's tokens are read, and the state is the one meant. */
  lemma {:induction false} FreeReads(g: Shader, end: string, e: Expr, rest: seq<Token>, s: State)
    requires Fits(g) && Through(end) && Free(g, end, e)
    ensures Reaches(g, end, Tokens(e, rest), s, rest, Emit(g, e, s))
    decreases e, 10
  {
    match e
    case Ident(n) => StepPlain(g, end, NameToken(n), rest, s);
    case Number(t) => StepPlain(g, end, Token(Num, t), rest, s);
    case Spaced(x, ws) =>
      FreeReads(g, end, x, ws + rest, s);
      StepSpaces(g, end, ws, rest, Emit(g, x, s));
      ReachesThrough(g, end, Tokens(e, rest), s, ws + rest, Emit(g, x, s), rest, Emit(g, e, s));
    case Paren(x) =>
      FreeReads(g, end, x, [CLOSE] + rest, s.Say("("));
      StepGroup(g, end, Tokens(x, [CLOSE] + rest), rest, s, Emit(g, x, s.Say("(")));
    case Binary(_, _, _, _) => FreeReadsPart(g, end, e, rest, s);
    case Unary(_, _) => FreeReadsPart(g, end, e, rest, s);
    case Member(_, _) => FreeReadsPart(g, end, e, rest, s);
    case Index(_, _) => FreeReadsPart(g, end, e, rest, s);
    case _ => FreeReadsCall(g, end, e, rest, s);
  }

  lemma {:induction false} FreeReadsPart(g: Shader, end: string, e: Expr, rest: seq<Token>, s: State)
    requires Fits(g) && Through(end) && Free(g, end, e) && (e.Binary? || e.Unary? || e.Member? || e.Index?)
    ensures Reaches(g, end, Tokens(e, rest), s, rest, Emit(g, e, s))
    decreases e, 9
  {
    match e
    case Binary(op, a, b, gap) =>
      var behind, between := [Token(Other, op)] + (gap + Tokens(b, rest)), Emit(g, a, s).Say(op).Say(Text(gap));
      FreeReads(g, end, a, behind, s);
      StepOperator(g, end, op, gap, Tokens(b, rest), Emit(g, a, s));
      FreeReads(g, end, b, rest, between);
      ReachesThrough(g, end, Tokens(e, rest), s, behind, Emit(g, a, s), Tokens(b, rest), between);
      ReachesThrough(g, end, Tokens(e, rest), s, Tokens(b, rest), between, rest, Emit(g, e, s));
    case Unary(op, x) =>
      StepPlain(g, end, Token(Other, op), Tokens(x, rest), s);
      FreeReads(g, end, x, rest, s.Say(op));
      ReachesThrough(g, end, Tokens(e, rest), s, Tokens(x, rest), s.Say(op), rest, Emit(g, e, s));
    case Member(x, n) =>
      var behind := [DOT] + ([NameToken(n)] + rest);
      FreeReads(g, end, x, behind, s);
      StepMember(g, end, n, rest, Emit(g, x, s));
      ReachesThrough(g, end, Tokens(e, rest), s, behind, Emit(g, x, s), rest, Emit(g, e, s));
    case Index(x, i) =>
      var behind, inside := [LEFT] + Tokens(i, [RIGHT] + rest), Emit(g, x, s).Say("[");
      FreeReads(g, end, x, behind, s);
      FreeReads(g, end, i, [RIGHT] + rest, inside);
      StepIndex(g, end, Tokens(i, [RIGHT] + rest), rest, Emit(g, x, s), Emit(g, i, inside));
      ReachesThrough(g, end, Tokens(e, rest), s, behind, Emit(g, x, s), rest, Emit(g, e, s));
  }

  lemma {:induction false} FreeReadsCall(g: Shader, end: string, e: Expr, rest: seq<Token>, s: State)
    requires Fits(g) && Through(end) && Free(g, end, e)
    requires e.Call? || e.Product? || e.MulAdd? || e.Clamped? || e.Sample?
    ensures Reaches(g, end, Tokens(e, rest), s, rest, Emit(g, e, s))
    decreases e, 8
  {
    match e
    case Call(f, args) =>
      var behind, start := ArgTokens(args, [CLOSE] + rest), s.Say(Renamed(g, f));
      StepRenamed(g, end, f, [OPEN] + behind, s);
      FreeReadsGroup(g, end, args, rest, start);
      ReachesThrough(g, end, Tokens(e, rest), s, [OPEN] + behind, start, rest, Emit(g, e, s));
    case Product(a, b, gap) =>
      var middle := Emit(g, a, s.Say("(").Say("(")).Say(") * (");
      FreeReadsProduct(g, end, a, b, gap, rest, s, s.Say("("), s.Say("(").Say("("), middle);
    case MulAdd(a, b, c, gap) =>
      var middle := Emit(g, a, s.Say("(").Say("(")).Say(") * (");
      var last := Emit(g, b, middle).Say(") + (");
      FreeReadsMulAdd(g, end, e, a, b, c, gap, rest, s, s.Say("("), s.Say("(").Say("("), middle, last);
    case Clamped(x) =>
      var start := s.Say("clamp").Say("(");
      WalkReadsExpr(g, x, [CLOSE] + rest, ")", start);
      StepClamped(g, end, Tokens(x, [CLOSE] + rest), rest, s, s.Say("clamp"), start, Emit(g, x, start));
    case Sample(t, access, args) => FreeReadsSample(g, end, t, access, args, rest, s, SampleStart(g, t, access, s));
  }

  lemma {:induction false} FreeReadsGroup(g: Shader, end: string, args: Args, rest: seq<Token>, s: State)
    requires Fits(g) && Through(end) && (RegularArgs(g, args) || FreeArgs(g, end, args))
    ensures Reaches(g, end, [OPEN] + ArgTokens(args, [CLOSE] + rest), s, rest,
                    EmitArgs(g, args, s.Say("(")).Say(")"))
    decreases args, 16
  {
    var behind, after := ArgTokens(args, [CLOSE] + rest), EmitArgs(g, args, s.Say("("));
    if RegularArgs(g, args) {
      WalkReadsArgs(g, args, [CLOSE] + rest, s.Say("("));
      LoopEnds(g, rest, CLOSE, after);
      StepExactGroup(g, end, behind, rest, s, after);
    } else {
      FreeReadsArgs(g, end, args, [CLOSE] + rest, s.Say("("));
      StepGroup(g, end, behind, rest, s, after);
    }
  }

  lemma {:induction false} FreeReadsArgs(g: Shader, end: string, args: Args, rest: seq<Token>, s: State)
    requires Fits(g) && Through(end) && FreeArgs(g, end, args)
    ensures Reaches(g, end, ArgTokens(args, rest), s, rest, EmitArgs(g, args, s))
    decreases args, 14
  {
    match args
    case NoArgs =>
    case LastArg(e) => FreeReads(g, end, e, rest, s);
    case MoreArgs(e, gap, more) =>
      FreeReads(g, end, e, [COMMA] + (gap + ArgTokens(more, rest)), s);
      FreeReadsMore(g, end, gap, more, rest, Emit(g, e, s), ArgTokens(args, rest), s);
  }

  /** From the comma behind an argument on. */
  lemma {:induction false} FreeReadsMore(g: Shader, end: string, gap: seq<Token>, more: Args, rest: seq<Token>,
                                         after: State, ts: seq<Token>, s: State)
    requires Fits(g) && end == "}" && Spaces(gap) && FreeArgs(g, end, more)
    requires Reaches(g, end, ts, s, [COMMA] + (gap + ArgTokens(more, rest)), after)
    ensures Reaches(g, end, ts, s, rest, EmitArgs(g, more, after.Say(",").Say(Text(gap))))
    decreases more, 15
  {
    var tokens, onward := ArgTokens(more, rest), after.Say(",").Say(Text(gap));
    StepPlain(g, end, COMMA, gap + tokens, after);
    StepSpaces(g, end, gap, tokens, after.Say(","));
    FreeReadsArgs(g, end, more, rest, onward);
    FourLegs(g, end, ts, s, [COMMA] + (gap + tokens), after, gap + tokens, after.Say(","), tokens, onward, rest,
             EmitArgs(g, more, onward));
  }

  lemma FourLegs(g: Shader, end: string, a: seq<Token>, sa: State, b: seq<Token>, sb: State, c: seq<Token>, sc: State,
                 d: seq<Token>, sd: State, e: seq<Token>, se: State)
    requires Reaches(g, end, a, sa, b, sb) && Reaches(g, end, b, sb, c, sc)
    requires Reaches(g, end, c, sc, d, sd) && Reaches(g, end, d, sd, e, se)
    ensures Reaches(g, end, a, sa, e, se)
  {
    ReachesThrough(g, end, a, sa, b, sb, c, sc);
    ReachesThrough(g, end, a, sa, c, sc, d, sd);
    ReachesThrough(g, end, a, sa, d, sd, e, se);
  }

  lemma {:induction false} FreeReadsProduct(g: Shader, end: string, a: Expr, b: Expr, gap: seq<Token>,
                                            rest: seq<Token>, s: State, open: State, start: State, middle: State)
    requires Fits(g) && Through(end) && Free(g, ",", a) && Regular(g, b, true) && Spaces(gap) && LastFits(b, false)
    requires open == s.Say("(") && start == open.Say("(") && middle == Emit(g, a, start).Say(") * (")
    ensures Reaches(g, end, [NameToken("mul")] + ([OPEN] + Tokens(a, [COMMA] + (gap + Tokens(b, [CLOSE] + rest)))),
                    s, rest, Emit(g, b, middle).Say("))"))
    decreases a, 13
  {
    var tb := Tokens(b, [CLOSE] + rest);
    var ta := Tokens(a, [COMMA] + (gap + tb));
    var (after, left) := ArgumentWalk(g, b, rest, middle);
    assert Reaches(g, end, [NameToken("mul")] + ([OPEN] + ta), s, left, after.Say("))")) by {
      FreeArgumentRead(g, a, [COMMA] + (gap + tb), start);
      LastRead(g, b, gap, rest, middle);
      StepProduct(g, end, ta, gap + tb, tb, left, s, open, start, Emit(g, a, start), middle, after);
    }
    LastOnward(g, end, b, rest, middle, after, left, [NameToken("mul")] + ([OPEN] + ta), s);
  }

  lemma {:induction false} FreeReadsMulAdd(g: Shader, end: string, e: Expr, a: Expr, b: Expr, c: Expr,
                                           gap: seq<Token>, rest: seq<Token>, s: State, open: State, start: State,
                                           middle: State, last: State)
    requires e == MulAdd(a, b, c, gap)
    requires Fits(g) && Through(end) && Free(g, ",", a) && Free(g, ",", b) && Regular(g, c, true) && Spaces(gap)
    requires LastFits(c, false)
    requires open == s.Say("(") && start == open.Say("(") && middle == Emit(g, a, start).Say(") * (")
    requires last == Emit(g, b, middle).Say(") + (")
    ensures
      var tb := Tokens(b, [COMMA] + (gap + Tokens(c, [CLOSE] + rest)));
      Reaches(g, end, [NameToken("mad")] + ([OPEN] + Tokens(a, [COMMA] + (gap + tb))), s, rest,
              Emit(g, c, last).Say("))"))
    decreases e, 7
  {
    var tc := Tokens(c, [CLOSE] + rest);
    var tb := Tokens(b, [COMMA] + (gap + tc));
    var ta := Tokens(a, [COMMA] + (gap + tb));
    var (after, left) := ArgumentWalk(g, c, rest, last);
    assert Reaches(g, end, [NameToken("mad")] + ([OPEN] + ta), s, left, after.Say("))")) by {
      FreeArgumentRead(g, a, [COMMA] + (gap + tb), start);
      NextFree(g, gap, b, [COMMA] + (gap + tc));
      FreeMiddleRead(g, b, [COMMA] + (gap + tc), middle);
      LastRead(g, c, gap, rest, last);
      StepMulAdd(g, end, ta, gap + tb, tb, gap + tc, tc, left, s, open, start, Emit(g, a, start), middle,
                 Emit(g, b, middle), last, after);
    }
    LastOnward(g, end, c, rest, last, after, left, [NameToken("mad")] + ([OPEN] + ta), s);
  }

  /** The walk over a first argument, which ends at its comma. */
  lemma {:induction false} FreeArgumentRead(g: Shader, e: Expr, rest: seq<Token>, s: State)
    requires Fits(g) && Free(g, ",", e)
    ensures Loop(g, Tokens(e, rest), ",", s) == Loop(g, rest, ",", Emit(g, e, s))
    decreases e, 12
  {
    FreeReads(g, ",", e, rest, s);
    WalksAlong(g, ",", Tokens(e, rest), s, rest, Emit(g, e, s));
  }

  /** A later one may start with a parenthesis, which is copied first. */
  lemma {:induction false} FreeMiddleRead(g: Shader, e: Expr, rest: seq<Token>, s: State)
    requires Fits(g) && Free(g, ",", e)
    ensures Contents(g, Tokens(e, rest), ",", s) == Loop(g, rest, ",", Emit(g, e, s)) && Tokens(e, rest) != []
    decreases e, 13
  {
    var ts := Tokens(e, rest);
    FreeFirst(g, ",", e, rest);
    if StartsWithParen(e) {
      FreeReadsInside(g, ",", e, rest, s);
      assert ts == [OPEN] + ts[1..];
      ContentsFromOpen(g, ts[1..], ",", s);
      WalksAlong(g, ",", ts[1..], s.Say("("), rest, Emit(g, e, s));
    } else {
      ContentsIsLoop(g, ts, ",", s);
      FreeArgumentRead(g, e, rest, s);
    }
  }

  lemma NextFree(g: Shader, gap: seq<Token>, e: Expr, rest: seq<Token>)
    requires Free(g, ",", e) && Spaces(gap)
    ensures NextToken([COMMA] + (gap + Tokens(e, rest))) == Tokens(e, rest)
  {
    FreeFirst(g, ",", e, rest);
    assert ([COMMA] + (gap + Tokens(e, rest)))[1..] == gap + Tokens(e, rest);
    SpacesSkipped(gap, Tokens(e, rest));
  }

  /** Behind a last argument that fits there is nothing, or its own closing parenthesis. */
  lemma LastOnward(g: Shader, end: string, e: Expr, rest: seq<Token>, s: State, after: State, left: seq<Token>,
                   ts: seq<Token>, was: State)
    requires Through(end) && LastFits(e, false) && Regular(g, e, true)
    requires (after, left) == ArgumentWalk(g, e, rest, s) && Reaches(g, end, ts, was, left, after.Say("))"))
    ensures Reaches(g, end, ts, was, rest, Emit(g, e, s).Say("))"))
  {
    LastIsMeant(g, e, s);
    if StartsWithParen(e) {
      WholeLeaves(e, [CLOSE] + rest);
      WholeEndsThere(g, e, after.Say("))"));
      StepPlain(g, end, CLOSE, rest, after.Say("))"));
      ReachesThrough(g, end, ts, was, left, after.Say("))"), rest, after.Say("))").Say(")"));
    }
  }

  lemma {:induction false} WholeLeaves(e: Expr, rest: seq<Token>)
    requires Whole(e)
    ensures StartsWithParen(e) && BehindInner(e, rest) == rest
    decreases e
  {
    match e
    case Paren(_) =>
    case Spaced(x, ws) =>
      WholeLeaves(x, rest);
      assert ws + rest == rest;
  }

  lemma {:induction false} FreeReadsSample(g: Shader, end: string, t: string, access: Access, args: Args,
                                           rest: seq<Token>, s: State, start: State)
    requires Fits(g) && Through(end) && Sampled(g, t, access) && start == SampleStart(g, t, access, s)
    requires args != NoArgs
    requires (RegularArgs(g, args) && !ArgsStartWithParen(args)) || FreeArgs(g, end, args)
    ensures Reaches(g, end, SampleTokens(t, access, ArgTokens(args, [CLOSE] + rest)), s, rest,
                    EmitArgs(g, args, start).Say(")"))
    decreases args, 18
  {
    var coord := ArgTokens(args, [CLOSE] + rest);
    var stop := Contents(g, coord, ")", start);
    FirstOfFreeArgs(g, end, args, [CLOSE] + rest);
    if RegularArgs(g, args) && !ArgsStartWithParen(args) {
      WalkReadsArgs(g, args, [CLOSE] + rest, start);
      ContentsIsLoop(g, coord, ")", start);
      LoopEnds(g, rest, CLOSE, EmitArgs(g, args, start));
    } else {
      CoordinateStops(g, end, args, rest, start);
    }
    assert stop.rest == [CLOSE] + stop.rest[1..];
    StepSample(g, end, t, access, coord, stop.rest[1..], s, start, stop.state);
    SampleOnward(g, end, SampleTokens(t, access, coord), s, stop, rest, EmitArgs(g, args, start));
  }

  lemma FirstOfFreeArgs(g: Shader, end: string, args: Args, rest: seq<Token>)
    requires args != NoArgs && (RegularArgs(g, args) || FreeArgs(g, end, args))
    ensures var ts := ArgTokens(args, rest);
      && ts != [] && !ts[0].IsSpace() && !IsEnd(ts[0].text)
      && (Opens(ts[0]) ==> ts[0] == OPEN) && (ts[0] == OPEN <==> ArgsStartWithParen(args))
  {
    if RegularArgs(g, args) {
      FirstOfArgs(g, args, rest);
    } else {
      match args
      case LastArg(e) => FreeFirst(g, end, e, rest);
      case MoreArgs(e, gap, more) => FreeFirst(g, end, e, [COMMA] + (gap + ArgTokens(more, rest)));
    }
  }

  /** A coordinate's walk stops at a parenthesis on the way to its end. */
  lemma {:induction false} CoordinateStops(g: Shader, end: string, args: Args, rest: seq<Token>, s: State)
    requires Fits(g) && Through(end) && args != NoArgs && FreeArgs(g, end, args)
    ensures var stop := Contents(g, ArgTokens(args, [CLOSE] + rest), ")", s);
      stop.ok && stop.rest != [] && stop.rest[0] == CLOSE
      && Reaches(g, end, stop.rest, stop.state, [CLOSE] + rest, EmitArgs(g, args, s))
    decreases args, 17
  {
    var ts := ArgTokens(args, [CLOSE] + rest);
    FirstOfFreeArgs(g, end, args, [CLOSE] + rest);
    if ArgsStartWithParen(args) {
      FreeArgsInside(g, end, args, [CLOSE] + rest, s);
      assert ts == [OPEN] + ts[1..];
      ContentsFromOpen(g, ts[1..], ")", s);
      StopsOnTheWay(g, end, ts[1..], s.Say("("), rest, EmitArgs(g, args, s));
    } else {
      FreeReadsArgs(g, end, args, [CLOSE] + rest, s);
      ContentsIsLoop(g, ts, ")", s);
      StopsOnTheWay(g, end, ts, s, rest, EmitArgs(g, args, s));
    }
  }

  lemma {:induction false} FreeArgsInside(g: Shader, end: string, args: Args, rest: seq<Token>, s: State)
    requires Fits(g) && Through(end) && FreeArgs(g, end, args) && ArgsStartWithParen(args)
    ensures ArgTokens(args, rest)[0] == OPEN
    ensures Reaches(g, end, ArgTokens(args, rest)[1..], s.Say("("), rest, EmitArgs(g, args, s))
    decreases args, 16
  {
    match args
    case LastArg(e) => FreeReadsInside(g, end, e, rest, s);
    case MoreArgs(e, gap, more) =>
      FreeReadsInside(g, end, e, [COMMA] + (gap + ArgTokens(more, rest)), s);
      FreeReadsMore(g, end, gap, more, rest, Emit(g, e, s), ArgTokens(args, rest)[1..], s.Say("("));
  }

  /** From behind the expression's first parenthesis. */
  lemma {:induction false} FreeReadsInside(g: Shader, end: string, e: Expr, rest: seq<Token>, s: State)
    requires Fits(g) && Through(end) && Free(g, end, e) && StartsWithParen(e)
    ensures Tokens(e, rest)[0] == OPEN && Reaches(g, end, Tokens(e, rest)[1..], s.Say("("), rest, Emit(g, e, s))
    decreases e, 11
  {
    FreeFirst(g, end, e, rest);
    var ts := Tokens(e, rest)[1..];
    match e
    case Paren(x) =>
      var after := Emit(g, x, s.Say("("));
      FreeReads(g, end, x, [CLOSE] + rest, s.Say("("));
      StepPlain(g, end, CLOSE, rest, after);
      assert ts == Tokens(x, [CLOSE] + rest);
      ReachesThrough(g, end, ts, s.Say("("), [CLOSE] + rest, after, rest, after.Say(")"));
    case Spaced(x, ws) =>
      FreeReadsInside(g, end, x, ws + rest, s);
      StepSpaces(g, end, ws, rest, Emit(g, x, s));
      ReachesThrough(g, end, ts, s.Say("("), ws + rest, Emit(g, x, s), rest, Emit(g, e, s));
    case Binary(op, a, b, gap) =>
      var behind, between := [Token(Other, op)] + (gap + Tokens(b, rest)), Emit(g, a, s).Say(op).Say(Text(gap));
      FreeReadsInside(g, end, a, behind, s);
      StepOperator(g, end, op, gap, Tokens(b, rest), Emit(g, a, s));
      FreeReads(g, end, b, rest, between);
      ReachesThrough(g, end, ts, s.Say("("), behind, Emit(g, a, s), Tokens(b, rest), between);
      ReachesThrough(g, end, ts, s.Say("("), Tokens(b, rest), between, rest, Emit(g, e, s));
    case Member(x, n) =>
      var behind := [DOT] + ([NameToken(n)] + rest);
      FreeReadsInside(g, end, x, behind, s);
      StepMember(g, end, n, rest, Emit(g, x, s));
      ReachesThrough(g, end, ts, s.Say("("), behind, Emit(g, x, s), rest, Emit(g, e, s));
    case Index(x, i) =>
      var behind, inside := [LEFT] + Tokens(i, [RIGHT] + rest), Emit(g, x, s).Say("[");
      FreeReadsInside(g, end, x, behind, s);
      FreeReads(g, end, i, [RIGHT] + rest, inside);
      StepIndex(g, end, Tokens(i, [RIGHT] + rest), rest, Emit(g, x, s), Emit(g, i, inside));
      ReachesThrough(g, end, ts, s.Say("("), behind, Emit(g, x, s), rest, Emit(g, e, s));
  }

  /**
   Translation: walking over an expression's tokens writes exactly the text of its GLSL counterpart and notes its
   samplers, reads exactly those tokens, and goes on behind them. A walk to no parenthesis asks for less.
   */
  lemma TranslationPrints(g: Shader, e: Expr, rest: seq<Token>, end: string, s: State)
    requires Fits(g) && IsEnd(end) && (if end == ")" then Regular(g, e, true) else Free(g, end, e))
    ensures Loop(g, Tokens(e, rest), end, s) ==
      Loop(g, rest, end, State(s.out + Print(Translate(g, e)), s.counter, Bound(g, e, s.samplerIds)))
  {
    if end == ")" {
      WalkReadsExpr(g, e, rest, end, s);
    } else {
      FreeReads(g, end, e, rest, s);
      WalksAlong(g, end, Tokens(e, rest), s, rest, Emit(g, e, s));
    }
    EmitPrints(g, e, s);
  }

  // ---------- Products that leave their last argument early ----------

  /** The state when a walk to a parenthesis stops at the product's own one. */
  ghost function Stopped(g: Shader, b: Expr, middle: State): State
    requires StartsWithParen(b)
  {
    EmitBehind(g, b, Emit(g, Inner(b), middle.Say("(")).Say("))"))
  }

  lemma ProductStops(g: Shader, a: Expr, b: Expr, gap: seq<Token>, rest: seq<Token>, s: State, open: State,
                     start: State, middle: State)
    requires Fits(g) && Regular(g, a, false) && Regular(g, b, true) && Spaces(gap) && StartsWithParen(b)
    requires open == s.Say("(") && start == open.Say("(") && middle == Emit(g, a, start).Say(") * (")
    ensures Loop(g, [NameToken("mul")] + ([OPEN] + Tokens(a, [COMMA] + (gap + Tokens(b, [CLOSE] + rest)))), ")", s)
         == Walk(Stopped(g, b, middle), [CLOSE] + rest, true)
  {
    var tb := Tokens(b, [CLOSE] + rest);
    var after, left := Emit(g, Inner(b), middle.Say("(")), BehindInner(b, [CLOSE] + rest);
    WalkReadsExpr(g, a, [COMMA] + (gap + tb), ",", start);
    RegularAnywhere(g, b);
    NextArgument(g, COMMA, gap, b, [CLOSE] + rest);
    ArgumentCutShort(g, b, true, [CLOSE] + rest, middle);
    ReadsProduct(g, Tokens(a, [COMMA] + (gap + tb)), gap + tb, tb, left, ")", s, open, start, Emit(g, a, start),
                 middle, after);
    WalkReadsBehind(g, b, [CLOSE] + rest, ")", after.Say("))"));
    LoopEnds(g, rest, CLOSE, EmitBehind(g, b, after.Say("))")));
  }

  /** A walk that ends at a parenthesis goes on behind a product if and only if the second argument does not start with
      one; otherwise it stops at the product's own parenthesis. */
  lemma ProductInGroupExact(g: Shader, a: Expr, b: Expr, gap: seq<Token>, rest: seq<Token>, s: State, open: State,
                            start: State, middle: State)
    requires Fits(g) && Regular(g, a, false) && Regular(g, b, true) && Spaces(gap)
    requires open == s.Say("(") && start == open.Say("(") && middle == Emit(g, a, start).Say(") * (")
    ensures
      var ts := Tokens(a, [COMMA] + (gap + Tokens(b, [CLOSE] + rest)));
      Loop(g, [NameToken("mul")] + ([OPEN] + ts), ")", s) == Loop(g, rest, ")", Emit(g, b, middle).Say("))"))
      <==> !StartsWithParen(b)
  {
    if StartsWithParen(b) {
      ProductStops(g, a, b, gap, rest, s, open, start, middle);
      assert |Loop(g, rest, ")", Emit(g, b, middle).Say("))")).rest| < |[CLOSE] + rest|;
    } else {
      WalkReadsProduct(g, a, b, gap, rest, ")", s, open, start, middle);
    }
  }

  /** A texture read with several arguments, in a walk that ends at a comma: the walk goes on behind it if and only if
      the first argument does not start with a parenthesis; otherwise it stops at the texture's own comma. */
  lemma TextureInListExact(g: Shader, t: string, access: Access, e: Expr, gap: seq<Token>, more: Args,
                           rest: seq<Token>, s: State, start: State, args: Args)
    requires Fits(g) && Sampled(g, t, access) && start == SampleStart(g, t, access, s)
    requires args == MoreArgs(e, gap, more) && RegularArgs(g, args)
    ensures
      Loop(g, SampleTokens(t, access, ArgTokens(args, [CLOSE] + rest)), ",", s)
      == Loop(g, rest, ",", EmitArgs(g, args, start).Say(")"))
      <==> !StartsWithParen(e)
  {
    if StartsWithParen(e) {
      var behind := [COMMA] + (gap + ArgTokens(more, [CLOSE] + rest));
      TextureStops(g, t, access, e, behind, s, start);
      assert |Loop(g, rest, ",", EmitArgs(g, args, start).Say(")")).rest| < |behind|;
    } else {
      WalkReadsSample(g, t, access, args, rest, ",", s, start);
    }
  }

  lemma TextureStops(g: Shader, t: string, access: Access, e: Expr, behind: seq<Token>, s: State, start: State)
    requires Fits(g) && Sampled(g, t, access) && start == SampleStart(g, t, access, s)
    requires Regular(g, e, true) && StartsWithParen(e) && behind != [] && behind[0] == COMMA
    ensures Loop(g, SampleTokens(t, access, Tokens(e, behind)), ",", s).rest == behind
  {
    var after, left := Emit(g, Inner(e), start.Say("(")), BehindInner(e, behind);
    var ts := Tokens(e, behind);
    RegularAnywhere(g, e);
    assert ts != [] && !ts[0].IsSpace() by {
      FirstToken(g, e, behind);
    }
    assert Contents(g, ts, ")", start) == Walk(after, [CLOSE] + left, true) by {
      ArgumentCutShort(g, e, true, behind, start);
    }
    ReadsSample(g, t, access, ts, left, ",", s, start, after);
    BehindStops(g, e, behind, after.Say(")"));
  }

  lemma BehindStops(g: Shader, e: Expr, behind: seq<Token>, s: State)
    requires Fits(g) && Regular(g, e, false) && StartsWithParen(e) && behind != [] && behind[0] == COMMA
    ensures Loop(g, BehindInner(e, behind), ",", s).rest == behind
  {
    WalkReadsBehind(g, e, behind, ",", s);
    assert behind == [COMMA] + behind[1..];
    LoopEnds(g, behind[1..], COMMA, EmitBehind(g, e, s));
  }

  lemma ClampedText(out: string, tail: string)
    ensures ((((out + "))") + tail) + ", 0.0, 1.0)") + ")") != ((((out + ")") + tail) + "))") + ", 0.0, 1.0)")
  {
    var a, b := (((out + "))") + tail) + ", 0.0, 1.0)") + ")", (((out + ")") + tail) + "))") + ", 0.0, 1.0)";
    var k := |out| + 2 + |tail|;
    assert a[k] == ',' && b[k] == ')';
  }

  lemma NestedText(out: string, tail: string)
    requires tail != "" ==> tail[0] != ')'
    ensures ((((out + "))") + tail) + "))") + ")") == ((((out + ")") + tail) + "))") + "))") <==> tail == ""
  {
    var a, b := ((out + "))") + tail) + ")", ((out + ")") + tail) + "))";
    ParenMoves(out, tail);
    assert (((out + "))") + tail) + "))") + ")" == a + "))";
    assert a + "))" == b + "))" ==> a == b by {
      if a + "))" == b + "))" {
        assert a == (a + "))")[..|a|] && b == (b + "))")[..|b|];
      }
    }
  }

  /** The texts of a stopped product and of the product meant. */
  lemma StoppedText(g: Shader, b: Expr, middle: State, out: string)
    requires Regular(g, b, true) && StartsWithParen(b) && out == Emit(g, Inner(b), middle.Say("(")).out
    ensures Stopped(g, b, middle).out == (out + "))") + TailText(g, b)
    ensures Emit(g, b, middle).Say("))").out == ((out + ")") + TailText(g, b)) + "))"
  {
    var after := Emit(g, Inner(b), middle.Say("("));
    EmitInParts(g, b, true, middle);
    BehindPrints(g, b, true, after.Say(")"));
    BehindPrints(g, b, true, after.Say("))"));
  }

  /** `saturate(mul(a, b))`: the text is right if and only if the second argument does not start with a parenthesis. */
  lemma ClampedProductExact(g: Shader, a: Expr, b: Expr, gap: seq<Token>, rest: seq<Token>, s: State, open: State,
                            start: State, middle: State, clamp: State, written: State)
    requires Fits(g) && Regular(g, a, false) && Regular(g, b, true) && Spaces(gap)
    requires clamp == s.Say("clamp").Say("(") && open == clamp.Say("(") && start == open.Say("(")
    requires middle == Emit(g, a, start).Say(") * (")
    requires written == if StartsWithParen(b) then Stopped(g, b, middle).Say(", 0.0, 1.0)").Say(")")
      else Emit(g, b, middle).Say("))").Say(", 0.0, 1.0)")
    ensures Loop(g, Tokens(Clamped(Product(a, b, gap)), rest), "}", s) == Loop(g, rest, "}", written)
    ensures written.out == s.out + Print(Translate(g, Clamped(Product(a, b, gap)))) <==> !StartsWithParen(b)
  {
    var e := Clamped(Product(a, b, gap));
    ClampedMeant(g, a, b, gap, s, open, start, middle, clamp);
    if StartsWithParen(b) {
      ClampedWalk(g, e, a, b, gap, rest, s, open, start, middle, clamp);
      ClampedDiffers(g, b, middle);
    } else {
      FreeReads(g, "}", e, rest, s);
      WalksAlong(g, "}", Tokens(e, rest), s, rest, Emit(g, e, s));
    }
  }

  lemma ClampedMeant(g: Shader, a: Expr, b: Expr, gap: seq<Token>, s: State, open: State, start: State, middle: State,
                     clamp: State)
    requires clamp == s.Say("clamp").Say("(") && open == clamp.Say("(") && start == open.Say("(")
    requires middle == Emit(g, a, start).Say(") * (")
    ensures var e := Clamped(Product(a, b, gap));
      && Emit(g, e, s) == Emit(g, b, middle).Say("))").Say(", 0.0, 1.0)")
      && Emit(g, e, s).out == s.out + Print(Translate(g, e))
  {
    assert Emit(g, Product(a, b, gap), clamp) == Emit(g, b, middle).Say("))");
    EmitPrints(g, Clamped(Product(a, b, gap)), s);
  }

  lemma ClampedWalk(g: Shader, e: Expr, a: Expr, b: Expr, gap: seq<Token>, rest: seq<Token>, s: State, open: State,
                    start: State, middle: State, clamp: State)
    requires e == Clamped(Product(a, b, gap))
    requires Fits(g) && Regular(g, a, false) && Regular(g, b, true) && Spaces(gap) && StartsWithParen(b)
    requires clamp == s.Say("clamp").Say("(") && open == clamp.Say("(") && start == open.Say("(")
    requires middle == Emit(g, a, start).Say(") * (")
    ensures Loop(g, Tokens(e, rest), "}", s) == Loop(g, rest, "}", Stopped(g, b, middle).Say(", 0.0, 1.0)").Say(")"))
  {
    var ts := [NameToken("mul")] + ([OPEN] + Tokens(a, [COMMA] + (gap + Tokens(b, [CLOSE] + ([CLOSE] + rest)))));
    ClampedTokens(a, b, gap, rest, e);
    ClampedWalkOn(g, a, b, gap, rest, s, open, start, middle, clamp, ts);
  }

  lemma ClampedTokens(a: Expr, b: Expr, gap: seq<Token>, rest: seq<Token>, e: Expr)
    requires e == Clamped(Product(a, b, gap))
    ensures Tokens(e, rest) == [NameToken("saturate")] + ([OPEN] + ([NameToken("mul")]
      + ([OPEN] + Tokens(a, [COMMA] + (gap + Tokens(b, [CLOSE] + ([CLOSE] + rest)))))))
  {
  }

  lemma ClampedWalkOn(g: Shader, a: Expr, b: Expr, gap: seq<Token>, rest: seq<Token>, s: State, open: State,
                      start: State, middle: State, clamp: State, ts: seq<Token>)
    requires Fits(g) && Regular(g, a, false) && Regular(g, b, true) && Spaces(gap) && StartsWithParen(b)
    requires clamp == s.Say("clamp").Say("(") && open == clamp.Say("(") && start == open.Say("(")
    requires middle == Emit(g, a, start).Say(") * (")
    requires ts == [NameToken("mul")] + ([OPEN] + Tokens(a, [COMMA] + (gap + Tokens(b, [CLOSE] + ([CLOSE] + rest)))))
    ensures Loop(g, [NameToken("saturate")] + ([OPEN] + ts), "}", s)
         == Loop(g, rest, "}", Stopped(g, b, middle).Say(", 0.0, 1.0)").Say(")"))
  {
    var done := Stopped(g, b, middle);
    assert Loop(g, ts, ")", clamp) == Walk(done, [CLOSE] + ([CLOSE] + rest), true) by {
      ProductStops(g, a, b, gap, [CLOSE] + rest, clamp, open, start, middle);
    }
    ClampedStops(g, ts, rest, s, clamp, done);
  }

  lemma ClampedDiffers(g: Shader, b: Expr, middle: State)
    requires Regular(g, b, true) && StartsWithParen(b)
    ensures Stopped(g, b, middle).Say(", 0.0, 1.0)").Say(")").out
         != Emit(g, b, middle).Say("))").Say(", 0.0, 1.0)").out
  {
    var out := Emit(g, Inner(b), middle.Say("(")).out;
    StoppedText(g, b, middle, out);
    ClampedText(out, TailText(g, b));
  }

  lemma ClampedStops(g: Shader, ts: seq<Token>, rest: seq<Token>, s: State, clamp: State, after: State)
    requires Fits(g) && clamp == s.Say("clamp").Say("(")
    requires Loop(g, ts, ")", clamp) == Walk(after, [CLOSE] + ([CLOSE] + rest), true)
    ensures Loop(g, [NameToken("saturate")] + ([OPEN] + ts), "}", s)
         == Loop(g, rest, "}", after.Say(", 0.0, 1.0)").Say(")"))
  {
    LoopEnds(g, [CLOSE] + rest, CLOSE, after);
    StepClamped(g, "}", ts, [CLOSE] + rest, s, s.Say("clamp"), clamp, after);
    WalksAlong(g, "}", [NameToken("saturate")] + ([OPEN] + ts), s, [CLOSE] + rest, after.Say(", 0.0, 1.0)"));
    LoopPlain(g, CLOSE, rest, "}", after.Say(", 0.0, 1.0)"));
  }

  /** `mul(x, mul(a, b))`: the text is right if and only if `b` does not start with a parenthesis, or is one whole
      group. */
  lemma NestedProductExact(g: Shader, x: Expr, a: Expr, b: Expr, gap: seq<Token>, rest: seq<Token>, s: State,
                           outer: State, open: State, start: State, middle: State, written: State)
    requires Fits(g) && Regular(g, x, false) && Regular(g, a, false) && Regular(g, b, true) && Spaces(gap)
    requires outer == Emit(g, x, s.Say("(").Say("(")).Say(") * (")
    requires open == outer.Say("(") && start == open.Say("(") && middle == Emit(g, a, start).Say(") * (")
    requires written == if StartsWithParen(b) then Stopped(g, b, middle).Say("))").Say(")")
      else Emit(g, b, middle).Say("))").Say("))")
    ensures Loop(g, Tokens(Product(x, Product(a, b, gap), gap), rest), "}", s) == Loop(g, rest, "}", written)
    ensures written.out == s.out + Print(Translate(g, Product(x, Product(a, b, gap), gap)))
      <==> !StartsWithParen(b) || Whole(b)
  {
    var e := Product(x, Product(a, b, gap), gap);
    NestedMeant(g, x, a, b, gap, s, outer, open, start, middle);
    EmitText(g, e, s);
    if StartsWithParen(b) {
      NestedWalk(g, x, a, b, gap, rest, s, outer, open, start, middle);
      NestedDiffers(g, b, middle);
    } else {
      RegularIsFree(g, ",", x, false);
      FreeReads(g, "}", e, rest, s);
      WalksAlong(g, "}", Tokens(e, rest), s, rest, Emit(g, e, s));
    }
  }

  lemma NestedMeant(g: Shader, x: Expr, a: Expr, b: Expr, gap: seq<Token>, s: State, outer: State, open: State,
                    start: State, middle: State)
    requires outer == Emit(g, x, s.Say("(").Say("(")).Say(") * (")
    requires open == outer.Say("(") && start == open.Say("(") && middle == Emit(g, a, start).Say(") * (")
    ensures Emit(g, Product(x, Product(a, b, gap), gap), s) == Emit(g, b, middle).Say("))").Say("))")
  {
    EmitProduct(g, a, b, gap, outer, open, start, middle);
    EmitProduct(g, x, Product(a, b, gap), gap, s, s.Say("("), s.Say("(").Say("("), outer);
  }

  lemma EmitText(g: Shader, e: Expr, s: State)
    ensures Emit(g, e, s).out == s.out + Print(Translate(g, e))
  {
    EmitPrints(g, e, s);
  }

  lemma EmitProduct(g: Shader, a: Expr, b: Expr, gap: seq<Token>, s: State, open: State, start: State, middle: State)
    requires open == s.Say("(") && start == open.Say("(") && middle == Emit(g, a, start).Say(") * (")
    ensures Emit(g, Product(a, b, gap), s) == Emit(g, b, middle).Say("))")
  {
  }

  lemma NestedDiffers(g: Shader, b: Expr, middle: State)
    requires Regular(g, b, true) && StartsWithParen(b)
    ensures Stopped(g, b, middle).Say("))").Say(")").out == Emit(g, b, middle).Say("))").Say("))").out <==> Whole(b)
  {
    var out := Emit(g, Inner(b), middle.Say("(")).out;
    StoppedText(g, b, middle, out);
    TailStarts(g, b, true);
    NestedText(out, TailText(g, b));
  }

  lemma NestedWalk(g: Shader, x: Expr, a: Expr, b: Expr, gap: seq<Token>, rest: seq<Token>, s: State, outer: State,
                   open: State, start: State, middle: State)
    requires Fits(g) && Regular(g, x, false) && Regular(g, a, false) && Regular(g, b, true) && Spaces(gap)
    requires StartsWithParen(b) && outer == Emit(g, x, s.Say("(").Say("(")).Say(") * (")
    requires open == outer.Say("(") && start == open.Say("(") && middle == Emit(g, a, start).Say(") * (")
    ensures Loop(g, Tokens(Product(x, Product(a, b, gap), gap), rest), "}", s)
         == Loop(g, rest, "}", Stopped(g, b, middle).Say("))").Say(")"))
  {
    var done := Stopped(g, b, middle);
    var tb := Tokens(Product(a, b, gap), [CLOSE] + rest);
    var tx := Tokens(x, [COMMA] + (gap + tb));
    assert Contents(g, tb, ")", outer) == Walk(done, [CLOSE] + ([CLOSE] + rest), true) by {
      ProductStops(g, a, b, gap, [CLOSE] + rest, outer, open, start, middle);
      ContentsIsLoop(g, tb, ")", outer);
    }
    assert NextToken([COMMA] + (gap + tb)) == tb by {
      assert ([COMMA] + (gap + tb))[1..] == gap + tb;
      SpacesSkipped(gap, tb);
    }
    assert Reaches(g, "}", [NameToken("mul")] + ([OPEN] + tx), s, [CLOSE] + rest, done.Say("))")) by {
      WalkReadsExpr(g, x, [COMMA] + (gap + tb), ",", s.Say("(").Say("("));
      StepProduct(g, "}", tx, gap + tb, tb, [CLOSE] + rest, s, s.Say("("), s.Say("(").Say("("),
                  Emit(g, x, s.Say("(").Say("(")), outer, done);
    }
    WalksAlong(g, "}", [NameToken("mul")] + ([OPEN] + tx), s, [CLOSE] + rest, done.Say("))"));
    LoopPlain(g, CLOSE, rest, "}", done.Say("))"));
  }
}
