/**
 Whole function bodies: expressions, keywords and symbols between them, groups, blocks and calls of `sincos`
 (libobs-opengl/gl-shaderparser.c).
 */
module ShaderBodies {
  import opened Bytes
  import opened ShaderTranslator
  import opened ShaderGroups

  const LEFT_BRACE := Token(Other, "{")
  const RIGHT_BRACE := Token(Other, "}")

  /** A part of a body, and what comes behind it: an expression; a keyword, the name of a type, a symbol or a space;
      something in parentheses that is no expression, as behind `for`; a block; a call of `sincos`. */
  datatype Body =
    | Done
    | Expression(e: Expr, rest: Body)
    | Symbol(t: Token, rest: Body)
    | Group(inner: Body, rest: Body)
    | Block(inner: Body, rest: Body)
    | SinCos(x: Expr, sn: Expr, cs: Expr, gap: seq<Token>, rest: Body)

  function BodyTokens(b: Body, rest: seq<Token>): seq<Token>
    decreases b
  {
    match b
    case Done => rest
    case Expression(e, more) => Tokens(e, BodyTokens(more, rest))
    case Symbol(t, more) => [t] + BodyTokens(more, rest)
    case Group(inner, more) => [OPEN] + BodyTokens(inner, [CLOSE] + BodyTokens(more, rest))
    case Block(inner, more) => [LEFT_BRACE] + BodyTokens(inner, [RIGHT_BRACE] + BodyTokens(more, rest))
    case SinCos(x, sn, cs, gap, more) => SinCosTokens(x, sn, cs, gap, BodyTokens(more, rest))
  }

  function SinCosTokens(x: Expr, sn: Expr, cs: Expr, gap: seq<Token>, rest: seq<Token>): seq<Token> {
    [NameToken("sincos")]
    + ([OPEN] + Tokens(x, [COMMA] + (gap + Tokens(sn, [COMMA] + (gap + Tokens(cs, [CLOSE] + rest))))))
  }

  /** Expressions are what the walk reads; other tokens are no brackets, and no textures; the second target of `sincos`
      does not start with a parenthesis. */
  predicate Readable(g: Shader, b: Body) {
    match b
    case Done => true
    case Expression(e, more) => Free(g, "}", e) && Readable(g, more)
    case Symbol(t, more) => Stands(g, t) && Readable(g, more)
    case Group(inner, more) => Readable(g, inner) && Readable(g, more)
    case Block(inner, more) => Readable(g, inner) && Readable(g, more)
    case SinCos(x, sn, cs, gap, more) => SinCosFits(g, x, sn, cs, gap) && Readable(g, more)
  }

  predicate Stands(g: Shader, t: Token) {
    if t.kind == Name then Callable(g, t.text) else t.text != "}" && t.text != ")" && !Opens(t)
  }

  /** What is written for a token that stands by itself: names of types are those of GLSL. */
  function Standing(g: Shader, t: Token): string { if t.kind == Name then Renamed(g, t.text) else t.text }

  predicate SinCosFits(g: Shader, x: Expr, sn: Expr, cs: Expr, gap: seq<Token>) {
    Regular(g, x, false) && Regular(g, sn, false) && Regular(g, cs, true) && Spaces(gap) && !StartsWithParen(cs)
  }

  /** The text that is to be written, the helper variables used and the samplers noted: expressions become their GLSL
      counterparts, `sincos` three statements, names of types those of GLSL, and all else is copied. */
  ghost function Written(g: Shader, b: Body, s: State): State
    decreases b
  {
    match b
    case Done => s
    case Expression(e, more) => Written(g, more, ExprWritten(g, e, s))
    case Symbol(t, more) => Written(g, more, s.Say(Standing(g, t)))
    case Group(inner, more) => Written(g, more, Written(g, inner, s.Say("(")).Say(")"))
    case Block(inner, more) => Written(g, more, Written(g, inner, s.Say("{")).Say("}"))
    case SinCos(x, sn, cs, _, more) => Written(g, more, SinCosWritten(g, x, sn, cs, s))
  }

  ghost function ExprWritten(g: Shader, e: Expr, s: State): State {
    State(s.out + Print(Translate(g, e)), s.counter, Bound(g, e, s.samplerIds))
  }

  ghost function SinCosWritten(g: Shader, x: Expr, sn: Expr, cs: Expr, s: State): State {
    State(SincosText(g, x, sn, cs, s.out, SincosVar(s.counter)), s.counter + 1,
          Bound(g, cs, Bound(g, sn, Bound(g, x, s.samplerIds))))
  }

  lemma StepExpression(g: Shader, e: Expr, rest: seq<Token>, s: State)
    requires Fits(g) && Free(g, "}", e)
    ensures Reaches(g, "}", Tokens(e, rest), s, rest, ExprWritten(g, e, s))
  {
    FreeReads(g, "}", e, rest, s);
    EmitPrints(g, e, s);
  }

  lemma StepSymbol(g: Shader, t: Token, rest: seq<Token>, s: State)
    requires Stands(g, t)
    ensures Reaches(g, "}", [t] + rest, s, rest, s.Say(Standing(g, t)))
  {
    if t.kind == Name {
      StepRenamed(g, "}", t.text, rest, s);
    } else {
      StepPlain(g, "}", t, rest, s);
    }
  }

  /** A block is walked through by a walk of its own, which ends at its own brace. */
  lemma StepBlock(g: Shader, ts: seq<Token>, rest: seq<Token>, s: State, after: State)
    requires Reaches(g, "}", ts, s.Say("{"), [RIGHT_BRACE] + rest, after)
    ensures Reaches(g, "}", [LEFT_BRACE] + ts, s, rest, after.Say("}"))
  {
    var all := [LEFT_BRACE] + ts;
    WordPlain(g, all, s);
    assert all[1..] == ts;
    WalksAlong(g, "}", ts, s.Say("{"), [RIGHT_BRACE] + rest, after);
    LoopEnds(g, rest, RIGHT_BRACE, after);
    assert Contents(g, all, "}", s) == Walk(after, [RIGHT_BRACE] + rest, true);
    assert LoopToken(g, all, s) == Walk(after.Say("}"), [RIGHT_BRACE] + rest, true);
    assert ([RIGHT_BRACE] + rest)[1..] == rest;
  }

  lemma SincosIs(g: Shader, ts: seq<Token>, s: State)
    requires Fits(g) && ts != [] && ts[0] == NameToken("sincos")
    ensures Intrinsic(g, ts, s) == Sincos(g, ts, s)
  {
  }

  lemma SincosGoesOn(g: Shader, ts: seq<Token>, open: seq<Token>, comma: seq<Token>, s: State, after: State, done: Walk)
    requires ts != [] && NextToken(ts) == open && At(open, "(")
    requires Contents(g, open, ",", SincosStart(s)) == Walk(after, comma, true) && |comma| < |ts|
    requires SincosTargets(g, ts, comma, SincosVar(s.counter), after.Say("); ")) == done
    ensures Sincos(g, ts, s) == done
  {
  }

  lemma StepSincos(g: Shader, ts: seq<Token>, open: seq<Token>, comma: seq<Token>, stop: seq<Token>, s: State,
                   after: State, done: State)
    requires Fits(g) && ts == [NameToken("sincos")] + open && NextToken(ts) == open && At(open, "(") && stop != []
    requires Contents(g, open, ",", SincosStart(s)) == Walk(after, comma, true) && |comma| < |ts|
    requires SincosTargets(g, ts, comma, SincosVar(s.counter), after.Say("); ")) == Walk(done, stop, true)
    ensures Reaches(g, "}", ts, s, stop[1..], done)
  {
    assert Intrinsic(g, ts, s) == Walk(done, stop, true) by {
      SincosIs(g, ts, s);
      SincosGoesOn(g, ts, open, comma, s, after, Walk(done, stop, true));
    }
    StepSpecial(g, "}", "sincos", open, stop, s, done);
  }

  lemma LastWhole(g: Shader, cs: Expr, rest: seq<Token>, s: State)
    requires !StartsWithParen(cs)
    ensures ArgumentWalk(g, cs, rest, s) == (Emit(g, cs, s), rest)
  {
  }

  lemma SinCosTargets(g: Shader, sn: Expr, cs: Expr, gap: seq<Token>, rest: seq<Token>, ts: seq<Token>,
                      comma: seq<Token>, v: string, middle: State, next: State, last: State)
    requires Fits(g) && Regular(g, sn, false) && Regular(g, cs, true) && Spaces(gap)
    requires next == Emit(g, sn, middle).Say(" = sin(").Say(v).Say("); ")
    requires ArgumentWalk(g, cs, rest, next) == (last, rest)
    requires comma == [COMMA] + (gap + Tokens(sn, [COMMA] + (gap + Tokens(cs, [CLOSE] + rest)))) && |comma| < |ts|
    ensures SincosTargets(g, ts, comma, v, middle) == Walk(last.Say(CosText(v)), [CLOSE] + rest, true)
  {
    SaidAtOnce(last, v);
    ReadsTargets(g, ts, sn, cs, gap, rest, v, middle, next, last, rest);
  }

  lemma StepSinCos(g: Shader, x: Expr, sn: Expr, cs: Expr, gap: seq<Token>, rest: seq<Token>, s: State, v: string,
                   start: State, middle: State, next: State, last: State)
    requires Fits(g) && SinCosFits(g, x, sn, cs, gap)
    requires v == SincosVar(s.counter) && start == Emit(g, x, SincosStart(s).Say("(")) && middle == start.Say("); ")
    requires next == Emit(g, sn, middle).Say(" = sin(").Say(v).Say("); ") && last == Emit(g, cs, next)
    ensures Reaches(g, "}", SinCosTokens(x, sn, cs, gap, rest), s, rest, last.Say(CosText(v)))
  {
    var behind := gap + Tokens(sn, [COMMA] + (gap + Tokens(cs, [CLOSE] + rest)));
    var open := [OPEN] + Tokens(x, [COMMA] + behind);
    var ts := [NameToken("sincos")] + open;
    NextIs(NameToken("sincos"), OPEN, Tokens(x, [COMMA] + behind));
    LastWhole(g, cs, rest, next);
    SinCosTargets(g, sn, cs, gap, rest, ts, [COMMA] + behind, v, middle, next, last);
    FirstArgumentRead(g, x, COMMA, behind, SincosStart(s));
    StepSincos(g, ts, open, [COMMA] + behind, [CLOSE] + rest, s, start, last.Say(CosText(v)));
    assert ([CLOSE] + rest)[1..] == rest;
  }

  lemma SinCosReads(g: Shader, x: Expr, sn: Expr, cs: Expr, gap: seq<Token>, rest: seq<Token>, s: State)
    requires Fits(g) && SinCosFits(g, x, sn, cs, gap)
    ensures Reaches(g, "}", SinCosTokens(x, sn, cs, gap, rest), s, rest, SinCosWritten(g, x, sn, cs, s))
  {
    var v := SincosVar(s.counter);
    var start := Emit(g, x, SincosStart(s).Say("("));
    var middle := start.Say("); ");
    var next := Emit(g, sn, middle).Say(" = sin(").Say(v).Say("); ");
    assert Emit(g, cs, next).Say(CosText(v)) == SinCosWritten(g, x, sn, cs, s) by {
      SincosMeant(g, x, sn, cs, s, v, middle, next);
    }
    StepSinCos(g, x, sn, cs, gap, rest, s, v, start, middle, next, Emit(g, cs, next));
  }

  /** The walk reads exactly the body's tokens, and writes what is meant. */
  lemma {:induction false} BodyReads(g: Shader, b: Body, rest: seq<Token>, s: State)
    requires Fits(g) && Readable(g, b)
    ensures Reaches(g, "}", BodyTokens(b, rest), s, rest, Written(g, b, s))
    decreases b, 0
  {
    match b
    case Done =>
    case Expression(e, more) =>
      StepExpression(g, e, BodyTokens(more, rest), s);
      BodyOnward(g, more, rest, BodyTokens(b, rest), s, ExprWritten(g, e, s));
    case Symbol(t, more) =>
      StepSymbol(g, t, BodyTokens(more, rest), s);
      BodyOnward(g, more, rest, BodyTokens(b, rest), s, s.Say(Standing(g, t)));
    case Group(inner, more) =>
      var after := Written(g, inner, s.Say("("));
      BodyReads(g, inner, [CLOSE] + BodyTokens(more, rest), s.Say("("));
      StepGroup(g, "}", BodyTokens(inner, [CLOSE] + BodyTokens(more, rest)), BodyTokens(more, rest), s, after);
      BodyOnward(g, more, rest, BodyTokens(b, rest), s, after.Say(")"));
    case Block(inner, more) =>
      var after := Written(g, inner, s.Say("{"));
      BodyReads(g, inner, [RIGHT_BRACE] + BodyTokens(more, rest), s.Say("{"));
      StepBlock(g, BodyTokens(inner, [RIGHT_BRACE] + BodyTokens(more, rest)), BodyTokens(more, rest), s, after);
      BodyOnward(g, more, rest, BodyTokens(b, rest), s, after.Say("}"));
    case SinCos(x, sn, cs, gap, more) =>
      SinCosReads(g, x, sn, cs, gap, BodyTokens(more, rest), s);
      BodyOnward(g, more, rest, BodyTokens(b, rest), s, SinCosWritten(g, x, sn, cs, s));
  }

  lemma {:induction false} BodyOnward(g: Shader, more: Body, rest: seq<Token>, ts: seq<Token>, s: State, after: State)
    requires Fits(g) && Readable(g, more) && Reaches(g, "}", ts, s, BodyTokens(more, rest), after)
    ensures Reaches(g, "}", ts, s, rest, Written(g, more, after))
    decreases more, 1
  {
    BodyReads(g, more, rest, after);
    ReachesThrough(g, "}", ts, s, BodyTokens(more, rest), after, rest, Written(g, more, after));
  }

  /** `gl_write_function` walks from a body's brace to the one that closes it: it ends there, however blocks are nested,
      and has written the body's translation. */
  lemma FunctionBodyPrints(g: Shader, b: Body, rest: seq<Token>, s: State)
    requires Fits(g) && Readable(g, b)
    ensures Contents(g, [LEFT_BRACE] + BodyTokens(b, [RIGHT_BRACE] + rest), "}", s)
         == Walk(Written(g, b, s.Say("{")), [RIGHT_BRACE] + rest, true)
  {
    var ts, after := BodyTokens(b, [RIGHT_BRACE] + rest), Written(g, b, s.Say("{"));
    BodyReads(g, b, [RIGHT_BRACE] + rest, s.Say("{"));
    WordPlain(g, [LEFT_BRACE] + ts, s);
    assert ([LEFT_BRACE] + ts)[1..] == ts;
    WalksAlong(g, "}", ts, s.Say("{"), [RIGHT_BRACE] + rest, after);
    LoopEnds(g, rest, RIGHT_BRACE, after);
  }
}
