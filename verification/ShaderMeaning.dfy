/**
 What a translated shader expression means: it evaluates like the one it comes from, and its parentheses still say how
 it is to be read (libobs-opengl/gl-shaderparser.c).
 */
module ShaderMeaning {
  import opened Bytes
  import opened ShaderTranslator

  /** What the parts of an expression mean in a language with values `V`. */
  datatype Meaning<!V> = Meaning(
    ident: string -> V, number: string -> V, op: (string, V, V) -> V, unary: (string, V) -> V,
    member: (string, V) -> V, index: (V, V) -> V, call: (string, seq<V>) -> V, mul: (V, V) -> V, mad: (V, V, V) -> V,
    saturate: V -> V, sample: (Filter, string, nat, seq<V>) -> V, load: (string, seq<V>) -> V)

  ghost function Eval<V>(g: Shader, m: Meaning<V>, e: Expr): V {
    match e
    case Ident(n) => m.ident(n)
    case Number(t) => m.number(t)
    case Spaced(x, _) => Eval(g, m, x)
    case Paren(x) => Eval(g, m, x)
    case Binary(op, a, b, _) => m.op(op, Eval(g, m, a), Eval(g, m, b))
    case Unary(op, x) => m.unary(op, Eval(g, m, x))
    case Member(x, n) => m.member(n, Eval(g, m, x))
    case Index(x, i) => m.index(Eval(g, m, x), Eval(g, m, i))
    case Call(f, args) => m.call(f, EvalArgs(g, m, args))
    case Product(a, b, _) => m.mul(Eval(g, m, a), Eval(g, m, b))
    case MulAdd(a, b, c, _) => m.mad(Eval(g, m, a), Eval(g, m, b), Eval(g, m, c))
    case Clamped(x) => m.saturate(Eval(g, m, x))
    case Sample(t, Filtered(filter, smp, _), args) =>
      var id := SamplerIndex(g.samplers, smp);
      m.sample(filter, t, if id.Some? then id.value else 0, EvalArgs(g, m, args))
    case Sample(t, Direct, args) => m.load(t, EvalArgs(g, m, args))
  }

  ghost function EvalArgs<V>(g: Shader, m: Meaning<V>, args: Args): seq<V> {
    match args
    case NoArgs => []
    case LastArg(e) => [Eval(g, m, e)]
    case MoreArgs(e, _, rest) => [Eval(g, m, e)] + EvalArgs(g, m, rest)
  }

  /** What the walker writes for the expression's outermost part means in GLSL (`m`) what that part means in HLSL (`h`),
      at the values that occur here; each texture is read with its sampler in `ids`. */
  ghost predicate AgreesHere<V>(g: Shader, h: Meaning<V>, m: Meaning<V>, ids: map<string, nat>, e: Expr) {
    match e
    case Ident(n) => m.ident(n) == h.ident(n)
    case Number(t) => m.number(t) == h.number(t)
    case Spaced(_, _) => true
    case Paren(_) => true
    case Binary(op, a, b, _) => m.op(op, Eval(g, h, a), Eval(g, h, b)) == h.op(op, Eval(g, h, a), Eval(g, h, b))
    case Unary(op, x) => m.unary(op, Eval(g, h, x)) == h.unary(op, Eval(g, h, x))
    case Member(x, n) => m.member(n, Eval(g, h, x)) == h.member(n, Eval(g, h, x))
    case Index(x, i) => m.index(Eval(g, h, x), Eval(g, h, i)) == h.index(Eval(g, h, x), Eval(g, h, i))
    case Call(f, args) => m.call(Renamed(g, f), EvalArgs(g, h, args)) == h.call(f, EvalArgs(g, h, args))
    case Product(a, b, _) => m.op("*", Eval(g, h, a), Eval(g, h, b)) == h.mul(Eval(g, h, a), Eval(g, h, b))
    case MulAdd(a, b, c, _) =>
      var (x, y, z) := (Eval(g, h, a), Eval(g, h, b), Eval(g, h, c));
      m.op("+", m.op("*", x, y), z) == h.mad(x, y, z)
    case Clamped(x) =>
      m.call("clamp", [Eval(g, h, x), m.number("0.0"), m.number("1.0")]) == h.saturate(Eval(g, h, x))
    case Sample(t, access, args) =>
      var read := m.call(GlslFunction(g, t, access), [m.ident(t)] + EvalArgs(g, h, args));
      match access
      case Filtered(filter, _, _) => t in ids ==> read == h.sample(filter, t, ids[t], EvalArgs(g, h, args))
      case Direct => read == h.load(t, EvalArgs(g, h, args))
  }

  /** The same for everything inside the expression. */
  ghost predicate AgreesInside<V>(g: Shader, h: Meaning<V>, m: Meaning<V>, ids: map<string, nat>, e: Expr)
    decreases e, 0
  {
    match e
    case Ident(_) => true
    case Number(_) => true
    case Spaced(x, _) => AgreesOn(g, h, m, ids, x)
    case Paren(x) => AgreesOn(g, h, m, ids, x)
    case Binary(_, a, b, _) => AgreesOn(g, h, m, ids, a) && AgreesOn(g, h, m, ids, b)
    case Unary(_, x) => AgreesOn(g, h, m, ids, x)
    case Member(x, _) => AgreesOn(g, h, m, ids, x)
    case Index(x, i) => AgreesOn(g, h, m, ids, x) && AgreesOn(g, h, m, ids, i)
    case Call(_, args) => AgreesOnArgs(g, h, m, ids, args)
    case Product(a, b, _) => AgreesOn(g, h, m, ids, a) && AgreesOn(g, h, m, ids, b)
    case MulAdd(a, b, c, _) => AgreesOn(g, h, m, ids, a) && AgreesOn(g, h, m, ids, b) && AgreesOn(g, h, m, ids, c)
    case Clamped(x) => AgreesOn(g, h, m, ids, x)
    case Sample(_, _, args) => AgreesOnArgs(g, h, m, ids, args)
  }

  /** The two languages agree on the expression, whatever else their operators and functions do. */
  ghost predicate AgreesOn<V>(g: Shader, h: Meaning<V>, m: Meaning<V>, ids: map<string, nat>, e: Expr)
    decreases e, 1
  {
    AgreesHere(g, h, m, ids, e) && AgreesInside(g, h, m, ids, e)
  }

  ghost predicate AgreesOnArgs<V>(g: Shader, h: Meaning<V>, m: Meaning<V>, ids: map<string, nat>, args: Args)
    decreases args, 0
  {
    match args
    case NoArgs => true
    case LastArg(e) => AgreesOn(g, h, m, ids, e)
    case MoreArgs(e, _, rest) => AgreesOn(g, h, m, ids, e) && AgreesOnArgs(g, h, m, ids, rest)
  }

  /** Every texture is read through the sampler it is bound to in the end. */
  predicate Faithful(g: Shader, e: Expr, ids: map<string, nat>) {
    match e
    case Ident(_) => true
    case Number(_) => true
    case Spaced(x, _) => Faithful(g, x, ids)
    case Paren(x) => Faithful(g, x, ids)
    case Binary(_, a, b, _) => Faithful(g, a, ids) && Faithful(g, b, ids)
    case Unary(_, x) => Faithful(g, x, ids)
    case Member(x, _) => Faithful(g, x, ids)
    case Index(x, i) => Faithful(g, x, ids) && Faithful(g, i, ids)
    case Call(_, args) => FaithfulArgs(g, args, ids)
    case Product(a, b, _) => Faithful(g, a, ids) && Faithful(g, b, ids)
    case MulAdd(a, b, c, _) => Faithful(g, a, ids) && Faithful(g, b, ids) && Faithful(g, c, ids)
    case Clamped(x) => Faithful(g, x, ids)
    case Sample(t, access, args) =>
      && (access.Filtered? ==> t in ids && SamplerIndex(g.samplers, access.sampler) == Some(ids[t]))
      && FaithfulArgs(g, args, ids)
  }

  predicate FaithfulArgs(g: Shader, args: Args, ids: map<string, nat>) {
    match args
    case NoArgs => true
    case LastArg(e) => Faithful(g, e, ids)
    case MoreArgs(e, _, rest) => Faithful(g, e, ids) && FaithfulArgs(g, rest, ids)
  }

  /** If the parts agree, the translated expression evaluates to the same value if and only if the whole agrees. */
  lemma {:induction false} TranslationMeansSame<V>(
      g: Shader, h: Meaning<V>, m: Meaning<V>, ids: map<string, nat>, e: Expr)
    requires AgreesInside(g, h, m, ids, e) && Faithful(g, e, ids)
    ensures Eval(g, m, Translate(g, e)) == Eval(g, h, e) <==> AgreesHere(g, h, m, ids, e)
    decreases e, 1
  {
    match e
    case Ident(_) =>
    case Number(_) =>
    case Spaced(x, _) => TranslationMeansSame(g, h, m, ids, x);
    case Paren(x) => TranslationMeansSame(g, h, m, ids, x);
    case Binary(_, a, b, _) =>
      TranslationMeansSame(g, h, m, ids, a);
      TranslationMeansSame(g, h, m, ids, b);
    case Unary(_, x) => TranslationMeansSame(g, h, m, ids, x);
    case Member(x, _) => TranslationMeansSame(g, h, m, ids, x);
    case Index(x, i) =>
      TranslationMeansSame(g, h, m, ids, x);
      TranslationMeansSame(g, h, m, ids, i);
    case Call(_, args) => ArgsMeanSame(g, h, m, ids, args);
    case _ => IntrinsicMeansSame(g, h, m, ids, e);
  }

  lemma {:induction false} IntrinsicMeansSame<V>(
      g: Shader, h: Meaning<V>, m: Meaning<V>, ids: map<string, nat>, e: Expr)
    requires AgreesInside(g, h, m, ids, e) && Faithful(g, e, ids)
    requires e.Product? || e.MulAdd? || e.Clamped? || e.Sample?
    ensures Eval(g, m, Translate(g, e)) == Eval(g, h, e) <==> AgreesHere(g, h, m, ids, e)
    decreases e, 0
  {
    match e
    case Product(a, b, _) =>
      TranslationMeansSame(g, h, m, ids, a);
      TranslationMeansSame(g, h, m, ids, b);
      StarredMeans(g, m, Translate(g, a), Translate(g, b));
    case MulAdd(a, b, c, _) =>
      TranslationMeansSame(g, h, m, ids, a);
      TranslationMeansSame(g, h, m, ids, b);
      TranslationMeansSame(g, h, m, ids, c);
      StarredMeans(g, m, Translate(g, a), Translate(g, b));
      assert Eval(g, m, Paren(Translate(g, c))) == Eval(g, m, Translate(g, c));
    case Clamped(x) =>
      TranslationMeansSame(g, h, m, ids, x);
      ClampMeans(g, m, Translate(g, x));
    case Sample(t, access, args) =>
      ArgsMeanSame(g, h, m, ids, args);
      TextureMeans(g, m, GlslFunction(g, t, access), t, TranslateArgs(g, args));
  }

  lemma ClampMeans<V>(g: Shader, m: Meaning<V>, x: Expr)
    ensures Eval(g, m, Call("clamp", MoreArgs(x, ONE_SPACE, ZeroAndOne())))
         == m.call("clamp", [Eval(g, m, x), m.number("0.0"), m.number("1.0")])
  {
    assert EvalArgs(g, m, LastArg(Number("1.0"))) == [m.number("1.0")];
    assert EvalArgs(g, m, ZeroAndOne()) == [m.number("0.0"), m.number("1.0")];
    assert EvalArgs(g, m, MoreArgs(x, ONE_SPACE, ZeroAndOne()))
        == [Eval(g, m, x), m.number("0.0"), m.number("1.0")];
  }

  lemma TextureMeans<V>(g: Shader, m: Meaning<V>, f: string, t: string, args: Args)
    ensures Eval(g, m, Call(f, MoreArgs(Ident(t), ONE_SPACE, args))) == m.call(f, [m.ident(t)] + EvalArgs(g, m, args))
  {
    assert EvalArgs(g, m, MoreArgs(Ident(t), ONE_SPACE, args)) == [m.ident(t)] + EvalArgs(g, m, args);
  }

  lemma StarredMeans<V>(g: Shader, m: Meaning<V>, a: Expr, b: Expr)
    ensures Eval(g, m, Starred(a, b)) == m.op("*", Eval(g, m, a), Eval(g, m, b))
    ensures Eval(g, m, Spaced(Starred(a, b), ONE_SPACE)) == m.op("*", Eval(g, m, a), Eval(g, m, b))
  {
    assert Eval(g, m, Spaced(Paren(a), ONE_SPACE)) == Eval(g, m, Paren(a)) == Eval(g, m, a);
    assert Eval(g, m, Paren(b)) == Eval(g, m, b);
  }

  lemma {:induction false} ArgsMeanSame<V>(
      g: Shader, h: Meaning<V>, m: Meaning<V>, ids: map<string, nat>, args: Args)
    requires AgreesOnArgs(g, h, m, ids, args) && FaithfulArgs(g, args, ids)
    ensures EvalArgs(g, m, TranslateArgs(g, args)) == EvalArgs(g, h, args)
    decreases args
  {
    match args
    case NoArgs =>
    case LastArg(e) => TranslationMeansSame(g, h, m, ids, e);
    case MoreArgs(e, _, rest) =>
      TranslationMeansSame(g, h, m, ids, e);
      ArgsMeanSame(g, h, m, ids, rest);
  }

  /** If every use of a texture goes through one sampler, walking over the expression leaves it bound to that one. */
  lemma {:induction false} FaithfulStaysBound(g: Shader, e: Expr, ids: map<string, nat>)
    requires Faithful(g, e, ids)
    ensures Bound(g, e, ids) == ids
    decreases e
  {
    match e
    case Ident(_) =>
    case Number(_) =>
    case Spaced(x, _) => FaithfulStaysBound(g, x, ids);
    case Paren(x) => FaithfulStaysBound(g, x, ids);
    case Binary(_, a, b, _) => FaithfulStaysBound(g, a, ids); FaithfulStaysBound(g, b, ids);
    case Unary(_, x) => FaithfulStaysBound(g, x, ids);
    case Member(x, _) => FaithfulStaysBound(g, x, ids);
    case Index(x, i) => FaithfulStaysBound(g, x, ids); FaithfulStaysBound(g, i, ids);
    case Call(_, args) => ArgsStayBound(g, args, ids);
    case Product(a, b, _) => FaithfulStaysBound(g, a, ids); FaithfulStaysBound(g, b, ids);
    case MulAdd(a, b, c, _) =>
      FaithfulStaysBound(g, a, ids);
      FaithfulStaysBound(g, b, ids);
      FaithfulStaysBound(g, c, ids);
    case Clamped(x) => FaithfulStaysBound(g, x, ids);
    case Sample(t, access, args) =>
      if access.Filtered? {
        assert ids[t := SamplerIndex(g.samplers, access.sampler).value] == ids;
      }
      ArgsStayBound(g, args, ids);
  }

  lemma {:induction false} ArgsStayBound(g: Shader, args: Args, ids: map<string, nat>)
    requires FaithfulArgs(g, args, ids)
    ensures BoundArgs(g, args, ids) == ids
    decreases args
  {
    match args
    case NoArgs =>
    case LastArg(e) => FaithfulStaysBound(g, e, ids);
    case MoreArgs(e, _, rest) => FaithfulStaysBound(g, e, ids); ArgsStayBound(g, rest, ids);
  }

  // ----- Reading without doubt -----

  /** How tightly an expression holds together, and how tightly an operator binds. */
  function Level(e: Expr): nat {
    match e
    case Binary(op, _, _, _) => OpLevel(op)
    case Unary(_, _) => 4
    case Spaced(x, _) => Level(x)
    case _ => 5
  }

  function OpLevel(op: string): nat
    ensures OpLevel(op) <= 3
  {
    if op == "*" || op == "/" then 3 else if op == "+" || op == "-" then 2 else 1
  }

  /** Operands bind more tightly than their operator, so the text can be read in one way only. */
  predicate Parenthesized(e: Expr) {
    match e
    case Ident(_) => true
    case Number(_) => true
    case Spaced(x, _) => Parenthesized(x)
    case Paren(x) => Parenthesized(x)
    case Binary(op, a, b, _) =>
      Parenthesized(a) && Parenthesized(b) && Level(a) >= OpLevel(op) && Level(b) > OpLevel(op)
    case Unary(_, x) => Parenthesized(x) && Level(x) >= 4
    case Member(x, _) => Parenthesized(x) && Level(x) == 5
    case Index(x, i) => Parenthesized(x) && Level(x) == 5 && Parenthesized(i)
    case Call(_, args) => ParenthesizedArgs(args)
    case Product(a, b, _) => Parenthesized(a) && Parenthesized(b)
    case MulAdd(a, b, c, _) => Parenthesized(a) && Parenthesized(b) && Parenthesized(c)
    case Clamped(x) => Parenthesized(x)
    case Sample(_, _, args) => ParenthesizedArgs(args)
  }

  predicate ParenthesizedArgs(args: Args) {
    match args
    case NoArgs => true
    case LastArg(e) => Parenthesized(e)
    case MoreArgs(e, _, rest) => Parenthesized(e) && ParenthesizedArgs(rest)
  }

  lemma {:induction false} LevelKept(g: Shader, e: Expr)
    ensures Level(Translate(g, e)) == Level(e)
    decreases e
  {
    match e
    case Spaced(x, _) => LevelKept(g, x);
    case _ =>
  }

  /** Replacing intrinsics by operators needs no parentheses that the translation does not write. */
  lemma {:induction false} TranslationStaysParenthesized(g: Shader, e: Expr)
    requires Parenthesized(e)
    ensures Parenthesized(Translate(g, e))
    decreases e
  {
    LevelKept(g, e);
    match e
    case Ident(_) =>
    case Number(_) =>
    case Spaced(x, _) => TranslationStaysParenthesized(g, x);
    case Paren(x) => TranslationStaysParenthesized(g, x);
    case Binary(_, a, b, _) =>
      LevelKept(g, a);
      LevelKept(g, b);
      TranslationStaysParenthesized(g, a);
      TranslationStaysParenthesized(g, b);
    case Unary(_, x) =>
      LevelKept(g, x);
      TranslationStaysParenthesized(g, x);
    case Member(x, _) =>
      LevelKept(g, x);
      TranslationStaysParenthesized(g, x);
    case Index(x, i) =>
      LevelKept(g, x);
      TranslationStaysParenthesized(g, x);
      TranslationStaysParenthesized(g, i);
    case Call(_, args) => ArgsStayParenthesized(g, args);
    case Product(a, b, _) =>
      TranslationStaysParenthesized(g, a);
      TranslationStaysParenthesized(g, b);
      StarredParenthesized(Translate(g, a), Translate(g, b));
    case MulAdd(a, b, c, _) =>
      TranslationStaysParenthesized(g, a);
      TranslationStaysParenthesized(g, b);
      TranslationStaysParenthesized(g, c);
      StarredParenthesized(Translate(g, a), Translate(g, b));
      assert Parenthesized(Paren(Translate(g, c)));
    case Clamped(x) =>
      TranslationStaysParenthesized(g, x);
      assert ParenthesizedArgs(ZeroAndOne()) by {
        assert ParenthesizedArgs(LastArg(Number("1.0")));
      }
    case Sample(_, _, args) => ArgsStayParenthesized(g, args);
  }

  lemma StarredParenthesized(a: Expr, b: Expr)
    requires Parenthesized(a) && Parenthesized(b)
    ensures Parenthesized(Spaced(Starred(a, b), ONE_SPACE)) && Parenthesized(Starred(a, b))
    ensures Level(Spaced(Starred(a, b), ONE_SPACE)) == 3
  {
    assert Parenthesized(Paren(a)) && Parenthesized(Paren(b));
    assert Parenthesized(Spaced(Paren(a), ONE_SPACE)) && Level(Spaced(Paren(a), ONE_SPACE)) == 5;
  }

  lemma {:induction false} ArgsStayParenthesized(g: Shader, args: Args)
    requires ParenthesizedArgs(args)
    ensures ParenthesizedArgs(TranslateArgs(g, args))
    decreases args
  {
    match args
    case NoArgs =>
    case LastArg(e) => TranslationStaysParenthesized(g, e);
    case MoreArgs(e, _, rest) =>
      TranslationStaysParenthesized(g, e);
      ArgsStayParenthesized(g, rest);
  }

  // ----- The one rename that changes the meaning -----

  /** HLSL's `fmod` rounds the quotient towards zero, GLSL's `mod` rounds it down. */
  function Truncated(q: real): int { if q >= 0.0 then q.Floor else -((-q).Floor) }

  function Fmod(x: real, y: real): real
    requires y != 0.0
  {
    x - y * (Truncated(x / y) as real)
  }

  function Mod(x: real, y: real): real
    requires y != 0.0
  {
    x - y * ((x / y).Floor as real)
  }

  lemma FmodIsMod(x: real, y: real)
    requires y != 0.0
    ensures Fmod(x, y) == Mod(x, y) <==> x / y >= 0.0 || x / y == (x / y).Floor as real
  {
    var q := x / y;
    ScaledEqual(y, Truncated(q) as real, q.Floor as real);
    if q < 0.0 {
      NegatedFloor(q);
    }
  }

  lemma ScaledEqual(y: real, a: real, b: real)
    requires y != 0.0
    ensures y * a == y * b <==> a == b
  {
    assert y * a - y * b == y * (a - b);
    if a != b {
      assert (y * (a - b)) / (a - b) == y;
    }
  }

  lemma NegatedFloor(q: real)
    ensures -((-q).Floor) == q.Floor <==> q == q.Floor as real
  {
    if q == q.Floor as real {
      assert -q == (-q.Floor) as real;
    }
  }
}
