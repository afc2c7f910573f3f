/**
 The body of a shader function, translated from HLSL to GLSL token by token (libobs-opengl/gl-shaderparser.c).
 The walker is given first, as functions on what is left of the token list; then expression trees and the theorem that
 relates them; last the object whose methods append to the GLSL text.
 */
module ShaderTranslator {
  import opened Bytes

  datatype Kind = Name | Num | SpaceTab | NewLine | Str | Other

  /** `struct cf_token`; the end of the list stands for the token of no type. */
  datatype Token = Token(kind: Kind, text: string)
  {
    predicate IsSpace() { kind == SpaceTab || kind == NewLine }
  }

  const OPEN := Token(Other, "(")
  const CLOSE := Token(Other, ")")
  const COMMA := Token(Other, ",")
  const DOT := Token(Other, ".")
  const LEFT := Token(Other, "[")
  const RIGHT := Token(Other, "]")

  datatype Param = Param(name: string, texture: bool, threeD: bool)

  /** What the walker looks names up in: the names of types, the intrinsics that are only renamed, the parameters and
      the samplers. */
  datatype Shader = Shader(
    types: map<string, string>, renames: map<string, string>, params: seq<Param>, samplers: seq<string>)

  const TYPES := map[
    "float2" := "vec2", "float3" := "vec3", "float4" := "vec4",
    "int2" := "ivec2", "int3" := "ivec3", "int4" := "ivec4",
    "uint2" := "uvec2", "uint3" := "uvec3", "uint4" := "uvec4",
    "float3x3" := "mat3x3", "float3x4" := "mat3x4", "float4x4" := "mat4x4",
    "texture2d" := "sampler2D", "texture3d" := "sampler3D",
    "texture_cube" := "samplerCube", "texture_rect" := "sampler2DRect"]

  const RENAMES := map[
    "atan2" := "atan", "ddx" := "dFdx", "ddy" := "dFdy", "fmod" := "mod", "frac" := "fract", "lerp" := "mix",
    "rsqrt" := "inversesqrt"]

  /** What the walker writes to: the GLSL text, the counter for helper variables, and each texture's sampler. */
  datatype State = State(out: string, counter: nat, samplerIds: map<string, nat>)
  {
    function Say(text: string): State { this.(out := out + text) }
  }

  /** A result, and the tokens from the last one that was read on. */
  datatype Walk = Walk(state: State, rest: seq<Token>, ok: bool)

  // ---------- The walker ----------

  function SkipSpaces(ts: seq<Token>): (r: seq<Token>)
    ensures |r| <= |ts|
    ensures r != [] ==> !r[0].IsSpace()
    decreases |ts|
  {
    if ts != [] && ts[0].IsSpace() then SkipSpaces(ts[1..]) else ts
  }

  /** `cf_next_token` */
  function NextToken(ts: seq<Token>): (r: seq<Token>)
    ensures |r| <= |ts|
    ensures ts != [] ==> |r| < |ts|
  {
    if ts == [] then [] else SkipSpaces(ts[1..])
  }

  predicate At(ts: seq<Token>, text: string) { ts != [] && ts[0].text == text }

  function TextAt(ts: seq<Token>): string { if ts == [] then "" else ts[0].text }

  function ParamIndex(params: seq<Param>, name: string): (r: Option<nat>)
    ensures r.Some? ==> r.value < |params| && params[r.value].name == name
    decreases |params|
  {
    if params == [] then None
    else if params[0].name == name then Some(0)
    else
      match ParamIndex(params[1..], name)
      case None => None
      case Some(i) => Some(i + 1)
  }

  function SamplerIndex(samplers: seq<string>, name: string): (r: Option<nat>)
    ensures r.Some? ==> r.value < |samplers| && samplers[r.value] == name
    decreases |samplers|
  {
    if samplers == [] then None
    else if samplers[0] == name then Some(0)
    else
      match SamplerIndex(samplers[1..], name)
      case None => None
      case Some(i) => Some(i + 1)
  }

  function Decimal(n: nat): (r: string)
    ensures r != ""
  {
    if n < 10 then [('0' as int + n) as char] else Decimal(n / 10) + [('0' as int + n % 10) as char]
  }

  /** `gl_write_function_contents`: from the first token up to `end`. */
  function Contents(g: Shader, ts: seq<Token>, end: string, s: State): (r: Walk)
    ensures |r.rest| <= |ts|
    decreases |ts|, 4
  {
    if ts == [] then Walk(s, [], true)
    else
      var w := Word(g, ts, s);
      if w.rest == [] then w else Loop(g, w.rest[1..], end, w.state)
  }

  /** The loop of `gl_write_function_contents`, in front of its next token. */
  function Loop(g: Shader, ts: seq<Token>, end: string, s: State): (r: Walk)
    ensures |r.rest| <= |ts|
    decreases |ts|, 6
  {
    if ts == [] || At(ts, end) then Walk(s, ts, true)
    else
      var w := LoopToken(g, ts, s);
      if w.rest == [] then w else Loop(g, w.rest[1..], end, w.state)
  }

  /** One turn of the loop. */
  function LoopToken(g: Shader, ts: seq<Token>, s: State): (r: Walk)
    requires ts != []
    ensures |r.rest| <= |ts|
    decreases |ts|, 5
  {
    if ts[0].kind == Other && ts[0].text != "" && (ts[0].text[0] == '{' || ts[0].text[0] == '(') then
      var w := Contents(g, ts, if ts[0].text[0] == '{' then "}" else ")", s);
      Walk(w.state.Say(TextAt(w.rest)), w.rest, true)
    else Word(g, ts, s)
  }

  /** One token, translated if it is a name. */
  function Word(g: Shader, ts: seq<Token>, s: State): (r: Walk)
    requires ts != []
    ensures |r.rest| <= |ts|
    decreases |ts|, 3
  {
    if ts[0].kind != Name then Walk(s.Say(ts[0].text), ts, true)
    else if ts[0].text in g.types then Walk(s.Say(g.types[ts[0].text]), ts, true)
    else
      var w := Intrinsic(g, ts, s);
      if w.ok then w else Walk(w.state.Say(ts[0].text), ts, true)
  }

  /** `gl_write_intrinsic`; on failure the text written so far stays. */
  function Intrinsic(g: Shader, ts: seq<Token>, s: State): (r: Walk)
    requires ts != []
    ensures |r.rest| <= |ts|
    decreases |ts|, 2
  {
    var name := ts[0].text;
    if name in g.renames then Walk(s.Say(g.renames[name]), ts, true)
    else if name == "mad" then Mad(g, ts, s)
    else if name == "mul" then Mul(g, ts, s)
    else if name == "saturate" then Saturate(g, ts, s)
    else if name == "sincos" then Sincos(g, ts, s)
    else
      var i := ParamIndex(g.params, name);
      if i.Some? && g.params[i.value].texture then TextureCode(g, ts, g.params[i.value], s) else Walk(s, ts, false)
  }

  function Mad(g: Shader, ts: seq<Token>, s: State): (r: Walk)
    requires ts != []
    ensures |r.rest| <= |ts|
    decreases |ts|, 1
  {
    var open := NextToken(ts);
    if !At(open, "(") then Walk(s, ts, false)
    else
      var a := Contents(g, open, ",", s.Say("("));
      var b := Contents(g, NextToken(a.rest), ",", a.state.Say(") * ("));
      var c := Contents(g, NextToken(b.rest), ")", b.state.Say(") + ("));
      Walk(c.state.Say("))"), c.rest, true)
  }

  function Mul(g: Shader, ts: seq<Token>, s: State): (r: Walk)
    requires ts != []
    ensures |r.rest| <= |ts|
    decreases |ts|, 1
  {
    var open := NextToken(ts);
    if !At(open, "(") then Walk(s, ts, false)
    else
      var a := Contents(g, open, ",", s.Say("("));
      var b := Contents(g, NextToken(a.rest), ")", a.state.Say(") * ("));
      Walk(b.state.Say("))"), b.rest, true)
  }

  function SincosVar(n: nat): string { "sincos_var_internal_" + Decimal(n) }

  function SincosStart(s: State): State {
    s.(counter := s.counter + 1).Say("float ").Say(SincosVar(s.counter)).Say(" = ")
  }

  function Sincos(g: Shader, ts: seq<Token>, s: State): (r: Walk)
    requires ts != []
    ensures |r.rest| <= |ts|
    decreases |ts|, 1
  {
    var open := NextToken(ts);
    if !At(open, "(") then Walk(s, ts, false)
    else
      var angle := Contents(g, open, ",", SincosStart(s));
      SincosTargets(g, ts, angle.rest, SincosVar(s.counter), angle.state.Say("); "))
  }

  /** The rest of `gl_write_sincos`, from the comma behind the angle on. */
  function SincosTargets(g: Shader, ts: seq<Token>, comma: seq<Token>, name: string, s: State): (r: Walk)
    requires |comma| < |ts|
    ensures |r.rest| <= |ts|
    decreases |ts|, 0
  {
    var ts1 := NextToken(comma);
    if ts1 == [] then Walk(s, ts, false)
    else
      var sin := Contents(g, ts1, ",", s);
      var next := sin.state.Say(" = sin(").Say(name).Say("); ");
      var ts2 := NextToken(sin.rest);
      if ts2 == [] then Walk(next, ts, false)
      else
        var cos := Contents(g, ts2, ")", next);
        Walk(cos.state.Say(" = cos(").Say(name).Say(")"), cos.rest, true)
  }

  function Saturate(g: Shader, ts: seq<Token>, s: State): (r: Walk)
    requires ts != []
    ensures |r.rest| <= |ts|
    decreases |ts|, 1
  {
    var open := NextToken(ts);
    if !At(open, "(") then Walk(s, ts, false)
    else
      var a := Contents(g, open, ")", s.Say("clamp"));
      Walk(a.state.Say(", 0.0, 1.0)"), a.rest, true)
  }

  /** The GLSL function for a texture's method, and whether a sampler comes first. */
  function TextureFunction(param: Param, name: string): Option<(string, bool)> {
    if name == "Sample" || name == "SampleBias" then Some(("texture", true))
    else if name == "SampleGrad" then Some(("textureGrad", true))
    else if name == "SampleLevel" then Some(("textureLod", true))
    else if name == "Load" then Some((if param.threeD then "obs_load_3d" else "obs_load_2d", false))
    else None
  }

  /** `gl_write_texture_call`; the rest starts at the parenthesis, or at the comma behind the sampler. */
  function TextureCall(g: Shader, ts: seq<Token>, param: Param, call: string, sampler: bool, s: State): (r: Walk)
    ensures |r.rest| <= |ts|
  {
    var open := NextToken(ts);
    if !At(open, "(") then Walk(s, ts, false)
    else
      var text := s.Say(call).Say("(").Say(param.name).Say(", ");
      if !sampler then Walk(text, open, true)
      else
        var name := NextToken(open);
        if name == [] then Walk(s, ts, false)
        else
          var id := SamplerIndex(g.samplers, name[0].text);
          var comma := NextToken(name);
          if id.None? || !At(comma, ",") then Walk(s, ts, false)
          else Walk(text.(samplerIds := s.samplerIds[param.name := id.value]), comma, true)
  }

  function TextureCode(g: Shader, ts: seq<Token>, param: Param, s: State): (r: Walk)
    requires ts != []
    ensures |r.rest| <= |ts|
    decreases |ts|, 1
  {
    var dot := NextToken(ts);
    var name := NextToken(dot);
    if !At(dot, ".") || name == [] then Walk(s, ts, false)
    else
      match TextureFunction(param, name[0].text)
      case None => Walk(s, ts, false)
      case Some(f) =>
        var call := TextureCall(g, name, param, f.0, f.1, s);
        var coord := NextToken(call.rest);
        if !call.ok || coord == [] then Walk(call.state, ts, false)
        else
          var w := Contents(g, coord, ")", call.state);
          Walk(w.state.Say(")"), w.rest, true)
  }

  // ---------- Expression trees ----------

  /** How HLSL reads a texture: by itself, with a bias, with gradients, or at a level of detail. */
  datatype Filter = Plain | Biased | Graded | Leveled

  /** With a filter and a sampler, or texel by texel. */
  datatype Access = Filtered(filter: Filter, sampler: string, gap: seq<Token>) | Direct

  /** Expressions of both languages. Gaps are the spaces behind a comma or an operator. */
  datatype Expr =
    | Ident(name: string)
    | Number(text: string)
    | Spaced(e: Expr, spaces: seq<Token>)
    | Paren(e: Expr)
    | Binary(op: string, left: Expr, right: Expr, gap: seq<Token>)
    | Unary(op: string, e: Expr)
    | Member(e: Expr, name: string)
    | Index(e: Expr, at: Expr)
    | Call(name: string, args: Args)
    | Product(a: Expr, b: Expr, gap: seq<Token>)
    | MulAdd(a: Expr, b: Expr, c: Expr, gap: seq<Token>)
    | Clamped(e: Expr)
    | Sample(texture: string, access: Access, args: Args)

  datatype Args = NoArgs | LastArg(e: Expr) | MoreArgs(e: Expr, gap: seq<Token>, rest: Args)

  function NameToken(name: string): Token { Token(Name, name) }

  /** The expression's tokens, followed by `rest`. */
  function Tokens(e: Expr, rest: seq<Token>): (r: seq<Token>)
    ensures |r| > |rest|
    decreases e
  {
    match e
    case Ident(n) => [NameToken(n)] + rest
    case Number(t) => [Token(Num, t)] + rest
    case Spaced(x, ws) => Tokens(x, ws + rest)
    case Paren(x) => [OPEN] + Tokens(x, [CLOSE] + rest)
    case Binary(op, a, b, gap) => Tokens(a, [Token(Other, op)] + (gap + Tokens(b, rest)))
    case Unary(op, x) => [Token(Other, op)] + Tokens(x, rest)
    case Member(x, n) => Tokens(x, [DOT] + ([NameToken(n)] + rest))
    case Index(x, i) => Tokens(x, [LEFT] + Tokens(i, [RIGHT] + rest))
    case Call(f, args) => [NameToken(f)] + ([OPEN] + ArgTokens(args, [CLOSE] + rest))
    case Product(a, b, gap) =>
      [NameToken("mul")] + ([OPEN] + Tokens(a, [COMMA] + (gap + Tokens(b, [CLOSE] + rest))))
    case MulAdd(a, b, c, gap) =>
      [NameToken("mad")]
      + ([OPEN] + Tokens(a, [COMMA] + (gap + Tokens(b, [COMMA] + (gap + Tokens(c, [CLOSE] + rest))))))
    case Clamped(x) => [NameToken("saturate")] + ([OPEN] + Tokens(x, [CLOSE] + rest))
    case Sample(t, access, args) => SampleTokens(t, access, ArgTokens(args, [CLOSE] + rest))
  }

  function ArgTokens(args: Args, rest: seq<Token>): (r: seq<Token>)
    ensures |r| >= |rest|
    decreases args
  {
    match args
    case NoArgs => rest
    case LastArg(e) => Tokens(e, rest)
    case MoreArgs(e, gap, more) => Tokens(e, [COMMA] + (gap + ArgTokens(more, rest)))
  }

  /** The method's name in HLSL. */
  function Method(access: Access): string {
    match access
    case Filtered(Plain, _, _) => "Sample"
    case Filtered(Biased, _, _) => "SampleBias"
    case Filtered(Graded, _, _) => "SampleGrad"
    case Filtered(Leveled, _, _) => "SampleLevel"
    case Direct => "Load"
  }

  /** From the method's parenthesis on, given the arguments behind the sampler. */
  function AccessTokens(access: Access, ts: seq<Token>): (r: seq<Token>)
    ensures |r| > |ts|
  {
    match access
    case Filtered(_, smp, gap) => [OPEN] + ([NameToken(smp)] + ([COMMA] + (gap + ts)))
    case Direct => [OPEN] + ts
  }

  function SampleTokens(t: string, access: Access, ts: seq<Token>): (r: seq<Token>)
    ensures |r| > |ts|
  {
    [NameToken(t)] + ([DOT] + ([NameToken(Method(access))] + AccessTokens(access, ts)))
  }

  function First(e: Expr): Token {
    match e
    case Ident(n) => NameToken(n)
    case Number(t) => Token(Num, t)
    case Spaced(x, _) => First(x)
    case Paren(_) => OPEN
    case Binary(_, a, _, _) => First(a)
    case Unary(op, _) => Token(Other, op)
    case Member(x, _) => First(x)
    case Index(x, _) => First(x)
    case Call(f, _) => NameToken(f)
    case Product(_, _, _) => NameToken("mul")
    case MulAdd(_, _, _, _) => NameToken("mad")
    case Clamped(_) => NameToken("saturate")
    case Sample(t, _, _) => NameToken(t)
  }

  /** What the tokens look like in the text. */
  function Text(ts: seq<Token>): string
    decreases |ts|
  {
    if ts == [] then "" else ts[0].text + Text(ts[1..])
  }

  const ONE_SPACE: seq<Token> := [Token(SpaceTab, " ")]

  /** The name of a function or type in GLSL. */
  function Renamed(g: Shader, name: string): string {
    if name in g.types then g.types[name] else if name in g.renames then g.renames[name] else name
  }

  function Starred(a: Expr, b: Expr): Expr {
    Binary("*", Spaced(Paren(a), ONE_SPACE), Paren(b), ONE_SPACE)
  }

  /** The GLSL function that reads a texture like that; the last two are helpers that the shader declares. */
  function GlslFunction(g: Shader, t: string, access: Access): string {
    match access
    case Filtered(Plain, _, _) => "texture"
    case Filtered(Biased, _, _) => "texture"
    case Filtered(Graded, _, _) => "textureGrad"
    case Filtered(Leveled, _, _) => "textureLod"
    case Direct => if ThreeD(g, t) then "obs_load_3d" else "obs_load_2d"
  }

  predicate ThreeD(g: Shader, name: string) {
    var i := ParamIndex(g.params, name);
    i.Some? && g.params[i.value].threeD
  }

  /** The corresponding GLSL expression. */
  function Translate(g: Shader, e: Expr): Expr {
    match e
    case Ident(_) => e
    case Number(_) => e
    case Spaced(x, ws) => Spaced(Translate(g, x), ws)
    case Paren(x) => Paren(Translate(g, x))
    case Binary(op, a, b, gap) => Binary(op, Translate(g, a), Translate(g, b), gap)
    case Unary(op, x) => Unary(op, Translate(g, x))
    case Member(x, n) => Member(Translate(g, x), n)
    case Index(x, i) => Index(Translate(g, x), Translate(g, i))
    case Call(f, args) => Call(Renamed(g, f), TranslateArgs(g, args))
    case Product(a, b, _) => Paren(Starred(Translate(g, a), Translate(g, b)))
    case MulAdd(a, b, c, _) =>
      var product := Starred(Translate(g, a), Translate(g, b));
      Paren(Binary("+", Spaced(product, ONE_SPACE), Paren(Translate(g, c)), ONE_SPACE))
    case Clamped(x) =>
      Call("clamp", MoreArgs(Translate(g, x), ONE_SPACE, ZeroAndOne()))
    case Sample(t, access, args) =>
      Call(GlslFunction(g, t, access), MoreArgs(Ident(t), ONE_SPACE, TranslateArgs(g, args)))
  }

  function TranslateArgs(g: Shader, args: Args): Args {
    match args
    case NoArgs => NoArgs
    case LastArg(e) => LastArg(Translate(g, e))
    case MoreArgs(e, gap, rest) => MoreArgs(Translate(g, e), gap, TranslateArgs(g, rest))
  }

  function ZeroAndOne(): Args { MoreArgs(Number("0.0"), ONE_SPACE, LastArg(Number("1.0"))) }

  /** Each texture's sampler, after the expression. */
  function Bound(g: Shader, e: Expr, ids: map<string, nat>): map<string, nat> {
    match e
    case Ident(_) => ids
    case Number(_) => ids
    case Spaced(x, _) => Bound(g, x, ids)
    case Paren(x) => Bound(g, x, ids)
    case Binary(_, a, b, _) => Bound(g, b, Bound(g, a, ids))
    case Unary(_, x) => Bound(g, x, ids)
    case Member(x, _) => Bound(g, x, ids)
    case Index(x, i) => Bound(g, i, Bound(g, x, ids))
    case Call(_, args) => BoundArgs(g, args, ids)
    case Product(a, b, _) => Bound(g, b, Bound(g, a, ids))
    case MulAdd(a, b, c, _) => Bound(g, c, Bound(g, b, Bound(g, a, ids)))
    case Clamped(x) => Bound(g, x, ids)
    case Sample(t, access, args) => BoundArgs(g, args, BoundTo(g, t, access, ids))
  }

  /** The texture is noted with its sampler, if it has one. */
  function BoundTo(g: Shader, t: string, access: Access, ids: map<string, nat>): map<string, nat> {
    match access
    case Filtered(_, smp, _) =>
      var id := SamplerIndex(g.samplers, smp);
      if id.Some? then ids[t := id.value] else ids
    case Direct => ids
  }

  function BoundArgs(g: Shader, args: Args, ids: map<string, nat>): map<string, nat> {
    match args
    case NoArgs => ids
    case LastArg(e) => Bound(g, e, ids)
    case MoreArgs(e, _, rest) => BoundArgs(g, rest, Bound(g, e, ids))
  }

  // ----- Which expressions are meant -----

  predicate IsEnd(text: string) { text == "," || text == ")" || text == "}" }

  /** Tokens of spaces, none of them empty. */
  predicate Spaces(ts: seq<Token>) {
    forall i :: 0 <= i < |ts| ==> ts[i].IsSpace() && !IsEnd(ts[i].text) && ts[i].text != "" && ts[i].text[0] != ')'
  }

  predicate IsTexture(g: Shader, name: string) {
    var i := ParamIndex(g.params, name);
    i.Some? && g.params[i.value].texture
  }

  predicate Special(name: string) { name == "mad" || name == "mul" || name == "saturate" || name == "sincos" }

  /** The tables leave the special intrinsics to the walker. */
  ghost predicate Fits(g: Shader) {
    forall name :: Special(name) ==> name !in g.types && name !in g.renames
  }

  /** A name that the walker copies. */
  predicate PlainName(g: Shader, name: string) {
    !IsEnd(name) && !Special(name) && !IsTexture(g, name) && name !in g.types && name !in g.renames
  }

  /** A name that may be called. */
  predicate Callable(g: Shader, name: string) {
    !IsEnd(name) && !Special(name) && (!IsTexture(g, name) || name in g.types || name in g.renames)
  }

  predicate Operator(op: string) { op != "" && op[0] != '(' && op[0] != ')' && op[0] != '{' && !IsEnd(op) }

  predicate StartsWithParen(e: Expr) { First(e) == OPEN }

  /** One group in parentheses, and nothing else. */
  predicate Whole(e: Expr) {
    match e
    case Paren(_) => true
    case Spaced(x, ws) => Whole(x) && ws == []
    case _ => false
  }

  /** The argument before the closing parenthesis of `mul` or `mad` may start with one only if it is a whole group, and
      the surrounding walk does not end at a parenthesis. */
  predicate LastFits(e: Expr, closing: bool) { !StartsWithParen(e) || (!closing && Whole(e)) }

  /** Names and tokens are what they seem, and last arguments fit; `closing` tells whether the surrounding walk ends at
      a closing parenthesis. */
  predicate Regular(g: Shader, e: Expr, closing: bool) {
    match e
    case Ident(n) => PlainName(g, n)
    case Number(t) => !IsEnd(t)
    case Spaced(x, ws) => Regular(g, x, closing) && Spaces(ws)
    case Paren(x) => Regular(g, x, true)
    case Binary(op, a, b, gap) => Operator(op) && Regular(g, a, closing) && Regular(g, b, closing) && Spaces(gap)
    case Unary(op, x) => Operator(op) && Regular(g, x, closing)
    case Member(x, n) => Regular(g, x, closing) && PlainName(g, n)
    case Index(x, i) => Regular(g, x, closing) && Regular(g, i, closing)
    case Call(f, args) => Callable(g, f) && RegularArgs(g, args)
    case Product(a, b, gap) => Regular(g, a, false) && Regular(g, b, true) && Spaces(gap) && LastFits(b, closing)
    case MulAdd(a, b, c, gap) =>
      Regular(g, a, false) && Regular(g, b, false) && Regular(g, c, true) && Spaces(gap) && LastFits(c, closing)
    case Clamped(x) => Regular(g, x, true)
    case Sample(t, access, args) =>
      Sampled(g, t, access) && args != NoArgs && RegularArgs(g, args) && ArgsFit(args, closing)
  }

  predicate Sampled(g: Shader, t: string, access: Access) {
    && IsTexture(g, t) && !IsEnd(t) && !Special(t) && t !in g.types && t !in g.renames
    && (access.Filtered? ==> SamplerIndex(g.samplers, access.sampler).Some? && Spaces(access.gap))
  }

  predicate ArgsStartWithParen(args: Args) {
    match args
    case NoArgs => false
    case LastArg(e) => StartsWithParen(e)
    case MoreArgs(e, _, _) => StartsWithParen(e)
  }

  /** What a texture is read with may start with a parenthesis only if nothing comes behind it, and the surrounding walk
      does not end at a parenthesis. */
  predicate ArgsFit(args: Args, closing: bool) { ArgsStartWithParen(args) ==> args.LastArg? && !closing }

  predicate RegularArgs(g: Shader, args: Args) {
    match args
    case NoArgs => true
    case LastArg(e) => Regular(g, e, true)
    case MoreArgs(e, gap, rest) => Regular(g, e, true) && Spaces(gap) && RegularArgs(g, rest)
  }

  /** A walk that does not end at a parenthesis asks for less. */
  lemma {:induction false} RegularAnywhere(g: Shader, e: Expr)
    requires Regular(g, e, true)
    ensures Regular(g, e, false)
    decreases e
  {
    match e
    case Spaced(x, _) => RegularAnywhere(g, x);
    case Binary(_, a, b, _) =>
      RegularAnywhere(g, a);
      RegularAnywhere(g, b);
    case Unary(_, x) => RegularAnywhere(g, x);
    case Member(x, _) => RegularAnywhere(g, x);
    case Index(x, i) =>
      RegularAnywhere(g, x);
      RegularAnywhere(g, i);
    case _ =>
  }

  // ---------- The walk over an expression ----------

  /** What the walker does to the state, piece by piece. */
  ghost function Emit(g: Shader, e: Expr, s: State): State {
    match e
    case Ident(n) => s.Say(n)
    case Number(t) => s.Say(t)
    case Spaced(x, ws) => Emit(g, x, s).Say(Text(ws))
    case Paren(x) => Emit(g, x, s.Say("(")).Say(")")
    case Binary(op, a, b, gap) => Emit(g, b, Emit(g, a, s).Say(op).Say(Text(gap)))
    case Unary(op, x) => Emit(g, x, s.Say(op))
    case Member(x, n) => Emit(g, x, s).Say(".").Say(n)
    case Index(x, i) => Emit(g, i, Emit(g, x, s).Say("[")).Say("]")
    case Call(f, args) => EmitArgs(g, args, s.Say(Renamed(g, f)).Say("(")).Say(")")
    case Product(a, b, _) => Emit(g, b, Emit(g, a, s.Say("(").Say("(")).Say(") * (")).Say("))")
    case MulAdd(a, b, c, _) =>
      Emit(g, c, Emit(g, b, Emit(g, a, s.Say("(").Say("(")).Say(") * (")).Say(") + (")).Say("))")
    case Clamped(x) => Emit(g, x, s.Say("clamp").Say("(")).Say(", 0.0, 1.0)")
    case Sample(t, access, args) => EmitArgs(g, args, SampleStart(g, t, access, s)).Say(")")
  }

  ghost function EmitArgs(g: Shader, args: Args, s: State): State {
    match args
    case NoArgs => s
    case LastArg(e) => Emit(g, e, s)
    case MoreArgs(e, gap, rest) => EmitArgs(g, rest, Emit(g, e, s).Say(",").Say(Text(gap)))
  }

  /** In front of what a texture is read with. */
  function SampleStart(g: Shader, t: string, access: Access, s: State): State {
    s.(samplerIds := BoundTo(g, t, access, s.samplerIds)).Say(GlslFunction(g, t, access)).Say("(").Say(t).Say(", ")
  }

  lemma WordPlain(g: Shader, ts: seq<Token>, s: State)
    requires ts != [] && (ts[0].kind == Name ==> PlainName(g, ts[0].text))
    ensures Word(g, ts, s) == Walk(s.Say(ts[0].text), ts, true)
  {
    if ts[0].kind == Name {
      assert Intrinsic(g, ts, s) == Walk(s, ts, false);
    }
  }

  lemma WordRenamed(g: Shader, ts: seq<Token>, s: State)
    requires ts != [] && ts[0].kind == Name && Callable(g, ts[0].text)
    ensures Word(g, ts, s) == Walk(s.Say(Renamed(g, ts[0].text)), ts, true)
  {
    if ts[0].text !in g.types {
      if ts[0].text in g.renames {
        assert Intrinsic(g, ts, s) == Walk(s.Say(g.renames[ts[0].text]), ts, true);
      } else {
        assert Intrinsic(g, ts, s) == Walk(s, ts, false);
      }
    }
  }

  predicate Opens(t: Token) { t.kind == Other && t.text != "" && (t.text[0] == '(' || t.text[0] == '{') }

  /** A turn of the loop whose token is not a bracket. */
  lemma LoopWord(g: Shader, t: Token, rest: seq<Token>, end: string, s: State, w: Walk)
    requires t.text != end && !Opens(t) && Word(g, [t] + rest, s) == w && w.rest != []
    ensures Loop(g, [t] + rest, end, s) == Loop(g, w.rest[1..], end, w.state)
  {
    assert LoopToken(g, [t] + rest, s) == w;
  }

  lemma LoopPlain(g: Shader, t: Token, rest: seq<Token>, end: string, s: State)
    requires t.text != end && !Opens(t) && (t.kind == Name ==> PlainName(g, t.text))
    ensures Loop(g, [t] + rest, end, s) == Loop(g, rest, end, s.Say(t.text))
  {
    WordPlain(g, [t] + rest, s);
    LoopWord(g, t, rest, end, s, Walk(s.Say(t.text), [t] + rest, true));
    assert ([t] + rest)[1..] == rest;
  }

  lemma LoopRenamed(g: Shader, name: string, rest: seq<Token>, end: string, s: State)
    requires name != end && Callable(g, name)
    ensures Loop(g, [NameToken(name)] + rest, end, s) == Loop(g, rest, end, s.Say(Renamed(g, name)))
  {
    var ts := [NameToken(name)] + rest;
    WordRenamed(g, ts, s);
    LoopWord(g, NameToken(name), rest, end, s, Walk(s.Say(Renamed(g, name)), ts, true));
    assert ts[1..] == rest;
  }

  lemma {:induction false} LoopSpaces(g: Shader, ws: seq<Token>, rest: seq<Token>, end: string, s: State)
    requires Spaces(ws) && IsEnd(end)
    ensures Loop(g, ws + rest, end, s) == Loop(g, rest, end, s.Say(Text(ws)))
    decreases |ws|
  {
    if ws == [] {
      assert [] + rest == rest && s.out + "" == s.out;
    } else {
      assert ws + rest == [ws[0]] + (ws[1..] + rest);
      LoopPlain(g, ws[0], ws[1..] + rest, end, s);
      LoopSpaces(g, ws[1..], rest, end, s.Say(ws[0].text));
      assert s.out + (ws[0].text + Text(ws[1..])) == (s.out + ws[0].text) + Text(ws[1..]);
    }
  }

  /** A group in parentheses, whose contents the walk takes to `walk`. */
  lemma LoopGroup(g: Shader, ts: seq<Token>, rest: seq<Token>, end: string, s: State, after: State)
    requires IsEnd(end) && Loop(g, ts, ")", s.Say("(")) == Walk(after, [CLOSE] + rest, true)
    ensures Loop(g, [OPEN] + ts, end, s) == Loop(g, rest, end, after.Say(")"))
  {
    var all := [OPEN] + ts;
    WordPlain(g, all, s);
    assert all[1..] == ts;
    assert Contents(g, all, ")", s) == Walk(after, [CLOSE] + rest, true);
    assert LoopToken(g, all, s) == Walk(after.Say(")"), [CLOSE] + rest, true);
    assert ([CLOSE] + rest)[1..] == rest;
  }

  lemma LoopOperator(g: Shader, op: string, gap: seq<Token>, ts: seq<Token>, end: string, s: State)
    requires Operator(op) && Spaces(gap) && IsEnd(end)
    ensures Loop(g, [Token(Other, op)] + (gap + ts), end, s) == Loop(g, ts, end, s.Say(op).Say(Text(gap)))
  {
    LoopPlain(g, Token(Other, op), gap + ts, end, s);
    LoopSpaces(g, gap, ts, end, s.Say(op));
  }

  lemma LoopMember(g: Shader, name: string, rest: seq<Token>, end: string, s: State)
    requires PlainName(g, name) && IsEnd(end)
    ensures Loop(g, [DOT] + ([NameToken(name)] + rest), end, s) == Loop(g, rest, end, s.Say(".").Say(name))
  {
    LoopPlain(g, DOT, [NameToken(name)] + rest, end, s);
    LoopPlain(g, NameToken(name), rest, end, s.Say("."));
  }

  lemma LoopIndex(g: Shader, ts: seq<Token>, rest: seq<Token>, end: string, s: State, after: State)
    requires IsEnd(end) && Loop(g, ts, end, s.Say("[")) == Loop(g, [RIGHT] + rest, end, after)
    ensures Loop(g, [LEFT] + ts, end, s) == Loop(g, rest, end, after.Say("]"))
  {
    LoopPlain(g, LEFT, ts, end, s);
    LoopPlain(g, RIGHT, rest, end, after);
  }

  lemma LoopEnds(g: Shader, rest: seq<Token>, t: Token, s: State)
    ensures Loop(g, [t] + rest, t.text, s) == Walk(s, [t] + rest, true)
  {
  }

  /** The contents from a bracket on are the loop behind it. */
  lemma ContentsFromOpen(g: Shader, ts: seq<Token>, end: string, s: State)
    ensures Contents(g, [OPEN] + ts, end, s) == Loop(g, ts, end, s.Say("("))
  {
    WordPlain(g, [OPEN] + ts, s);
    assert ([OPEN] + ts)[1..] == ts;
  }

  /** Anything else is read like in the loop. */
  lemma ContentsIsLoop(g: Shader, ts: seq<Token>, end: string, s: State)
    requires ts != [] && !Opens(ts[0]) && ts[0].text != end
    ensures Contents(g, ts, end, s) == Loop(g, ts, end, s)
  {
    assert LoopToken(g, ts, s) == Word(g, ts, s);
  }

  lemma {:induction false} FirstToken(g: Shader, e: Expr, rest: seq<Token>)
    ensures Tokens(e, rest)[0] == First(e)
    ensures Regular(g, e, false) ==>
      !First(e).IsSpace() && !IsEnd(First(e).text) && (Opens(First(e)) ==> First(e) == OPEN)
    decreases e
  {
    match e
    case Spaced(x, ws) => FirstToken(g, x, ws + rest);
    case Binary(op, a, b, gap) => FirstToken(g, a, [Token(Other, op)] + (gap + Tokens(b, rest)));
    case Member(x, n) => FirstToken(g, x, [DOT] + ([NameToken(n)] + rest));
    case Index(x, i) => FirstToken(g, x, [LEFT] + Tokens(i, [RIGHT] + rest));
    case _ =>
  }

  lemma {:induction false} SpacesSkipped(ws: seq<Token>, ts: seq<Token>)
    requires Spaces(ws) && ts != [] && !ts[0].IsSpace()
    ensures SkipSpaces(ws + ts) == ts
    decreases |ws|
  {
    if ws == [] {
      assert [] + ts == ts;
    } else {
      assert (ws + ts)[1..] == ws[1..] + ts;
      SpacesSkipped(ws[1..], ts);
    }
  }

  lemma NextIs(t: Token, u: Token, ts: seq<Token>)
    requires !u.IsSpace()
    ensures NextToken([t] + ([u] + ts)) == [u] + ts
  {
    assert ([t] + ([u] + ts))[1..] == [u] + ts;
  }

  /** Behind a comma and the gap, the next token is the argument's first. */
  lemma NextArgument(g: Shader, t: Token, gap: seq<Token>, e: Expr, rest: seq<Token>)
    requires Regular(g, e, false) && Spaces(gap)
    ensures NextToken([t] + (gap + Tokens(e, rest))) == Tokens(e, rest)
  {
    FirstToken(g, e, rest);
    assert ([t] + (gap + Tokens(e, rest)))[1..] == gap + Tokens(e, rest);
    SpacesSkipped(gap, Tokens(e, rest));
  }

  /** The first argument, from its parenthesis on. */
  lemma FirstArgument(g: Shader, ts: seq<Token>, t: Token, rest: seq<Token>, s: State, after: State)
    requires Loop(g, ts, t.text, s.Say("(")) == Loop(g, [t] + rest, t.text, after)
    ensures Contents(g, [OPEN] + ts, t.text, s) == Walk(after, [t] + rest, true)
  {
    ContentsFromOpen(g, ts, t.text, s);
    LoopEnds(g, rest, t, after);
  }

  /** A later argument, from its first token on. */
  lemma LaterArgument(g: Shader, e: Expr, t: Token, rest: seq<Token>, s: State, after: State)
    requires Regular(g, e, false) && IsEnd(t.text) && !StartsWithParen(e)
    requires Loop(g, Tokens(e, [t] + rest), t.text, s) == Loop(g, [t] + rest, t.text, after)
    ensures Contents(g, Tokens(e, [t] + rest), t.text, s) == Walk(after, [t] + rest, true)
  {
    FirstToken(g, e, [t] + rest);
    ContentsIsLoop(g, Tokens(e, [t] + rest), t.text, s);
    LoopEnds(g, rest, t, after);
  }

  /** A special intrinsic that the walker has read up to its last parenthesis. */
  lemma LoopSpecial(g: Shader, name: string, ts: seq<Token>, rest: seq<Token>, end: string, s: State, after: State)
    requires name != end && name !in g.types
    requires Intrinsic(g, [NameToken(name)] + ts, s) == Walk(after, [CLOSE] + rest, true)
    ensures Loop(g, [NameToken(name)] + ts, end, s) == Loop(g, rest, end, after)
  {
    assert Word(g, [NameToken(name)] + ts, s) == Walk(after, [CLOSE] + rest, true);
    LoopWord(g, NameToken(name), ts, end, s, Walk(after, [CLOSE] + rest, true));
    assert ([CLOSE] + rest)[1..] == rest;
  }

  // ----- Arguments that start with a parenthesis -----

  /** The first group of such an expression, and the tokens behind that group. */
  ghost function Inner(e: Expr): Expr
    requires StartsWithParen(e)
  {
    match e
    case Spaced(x, _) => Inner(x)
    case Paren(x) => x
    case Binary(_, a, _, _) => Inner(a)
    case Member(x, _) => Inner(x)
    case Index(x, _) => Inner(x)
    case Unary(_, _) => e
  }

  ghost function BehindInner(e: Expr, rest: seq<Token>): (r: seq<Token>)
    requires StartsWithParen(e)
    ensures |r| >= |rest|
    decreases e
  {
    match e
    case Spaced(x, ws) => BehindInner(x, ws + rest)
    case Paren(x) => rest
    case Binary(op, a, b, gap) => BehindInner(a, [Token(Other, op)] + (gap + Tokens(b, rest)))
    case Member(x, n) => BehindInner(x, [DOT] + ([NameToken(n)] + rest))
    case Index(x, i) => BehindInner(x, [LEFT] + Tokens(i, [RIGHT] + rest))
    case Unary(_, _) => rest
  }

  /** What the walk does behind the first group. */
  ghost function EmitBehind(g: Shader, e: Expr, s: State): State
    requires StartsWithParen(e)
    decreases e
  {
    match e
    case Spaced(x, ws) => EmitBehind(g, x, s).Say(Text(ws))
    case Paren(x) => s
    case Binary(op, a, b, gap) => Emit(g, b, EmitBehind(g, a, s).Say(op).Say(Text(gap)))
    case Member(x, n) => EmitBehind(g, x, s).Say(".").Say(n)
    case Index(x, i) => Emit(g, i, EmitBehind(g, x, s).Say("[")).Say("]")
    case Unary(_, _) => s
  }

  /** The state behind the last argument and `mul`'s or `mad`'s or a texture's own `closing` text. */
  ghost function EmitLast(g: Shader, e: Expr, s: State, closing: string): State {
    if StartsWithParen(e) then EmitBehind(g, e, Emit(g, Inner(e), s.Say("(")).Say(closing)).Say(")")
    else Emit(g, e, s).Say(closing)
  }

  lemma {:induction false} EmitInParts(g: Shader, e: Expr, closing: bool, s: State)
    requires Regular(g, e, closing) && StartsWithParen(e)
    ensures Emit(g, e, s) == EmitBehind(g, e, Emit(g, Inner(e), s.Say("(")).Say(")"))
    decreases e
  {
    match e
    case Spaced(x, _) => EmitInParts(g, x, closing, s);
    case Paren(_) =>
    case Binary(_, a, _, _) => EmitInParts(g, a, closing, s);
    case Member(x, _) => EmitInParts(g, x, closing, s);
    case Index(x, _) => EmitInParts(g, x, closing, s);
  }

  lemma {:induction false} WholeEndsThere(g: Shader, e: Expr, s: State)
    requires Whole(e)
    ensures StartsWithParen(e) && EmitBehind(g, e, s) == s
    decreases e
  {
    match e
    case Paren(_) =>
    case Spaced(x, _) =>
      WholeEndsThere(g, x, s);
      assert Text([]) == "" && s.out + "" == s.out;
  }

  /** Where the last argument fits, the text is the one meant; a texture's always is. */
  lemma LastIsMeant(g: Shader, e: Expr, s: State)
    requires Regular(g, e, true)
    ensures EmitLast(g, e, s, ")") == Emit(g, e, s).Say(")")
    ensures LastFits(e, false) ==> EmitLast(g, e, s, "))") == Emit(g, e, s).Say("))")
  {
    if StartsWithParen(e) {
      EmitInParts(g, e, true, s);
      if Whole(e) {
        var after := Emit(g, Inner(e), s.Say("("));
        WholeEndsThere(g, e, after.Say(")"));
        WholeEndsThere(g, e, after.Say("))"));
        TwoParens(after.out);
      }
    }
  }

  lemma TwoParens(out: string)
    ensures (out + "))") + ")" == (out + ")") + "))"
  {
    assert "))" == ")" + ")";
  }

  // ----- The walk itself -----

  /** The walk reads exactly the expression's tokens, whatever comes after them and wherever the surrounding walk is to
      end, and it ends on every expression. */
  lemma {:induction false} WalkReadsExpr(g: Shader, e: Expr, rest: seq<Token>, end: string, s: State)
    requires Fits(g) && IsEnd(end) && Regular(g, e, end == ")")
    ensures Loop(g, Tokens(e, rest), end, s) == Loop(g, rest, end, Emit(g, e, s))
    decreases e, 10
  {
    match e
    case Ident(n) => LoopPlain(g, NameToken(n), rest, end, s);
    case Number(t) => LoopPlain(g, Token(Num, t), rest, end, s);
    case Spaced(x, ws) =>
      WalkReadsExpr(g, x, ws + rest, end, s);
      LoopSpaces(g, ws, rest, end, Emit(g, x, s));
    case Paren(x) =>
      WalkReadsExpr(g, x, [CLOSE] + rest, ")", s.Say("("));
      LoopEnds(g, rest, CLOSE, Emit(g, x, s.Say("(")));
      LoopGroup(g, Tokens(x, [CLOSE] + rest), rest, end, s, Emit(g, x, s.Say("(")));
    case Binary(op, a, b, gap) =>
      WalkReadsExpr(g, a, [Token(Other, op)] + (gap + Tokens(b, rest)), end, s);
      LoopOperator(g, op, gap, Tokens(b, rest), end, Emit(g, a, s));
      WalkReadsExpr(g, b, rest, end, Emit(g, a, s).Say(op).Say(Text(gap)));
    case Unary(_, _) => WalkReadsPart(g, e, rest, end, s);
    case Member(_, _) => WalkReadsPart(g, e, rest, end, s);
    case Index(_, _) => WalkReadsPart(g, e, rest, end, s);
    case _ => WalkReadsCall(g, e, rest, end, s);
  }

  lemma {:induction false} WalkReadsPart(g: Shader, e: Expr, rest: seq<Token>, end: string, s: State)
    requires Fits(g) && IsEnd(end) && Regular(g, e, end == ")")
    requires e.Unary? || e.Member? || e.Index?
    ensures Loop(g, Tokens(e, rest), end, s) == Loop(g, rest, end, Emit(g, e, s))
    decreases e, 9
  {
    match e
    case Unary(op, x) =>
      LoopPlain(g, Token(Other, op), Tokens(x, rest), end, s);
      WalkReadsExpr(g, x, rest, end, s.Say(op));
    case Member(x, n) =>
      WalkReadsExpr(g, x, [DOT] + ([NameToken(n)] + rest), end, s);
      LoopMember(g, n, rest, end, Emit(g, x, s));
    case Index(x, i) =>
      var inside := Emit(g, x, s).Say("[");
      WalkReadsExpr(g, x, [LEFT] + Tokens(i, [RIGHT] + rest), end, s);
      WalkReadsExpr(g, i, [RIGHT] + rest, end, inside);
      LoopIndex(g, Tokens(i, [RIGHT] + rest), rest, end, Emit(g, x, s), Emit(g, i, inside));
  }

  lemma {:induction false} WalkReadsCall(g: Shader, e: Expr, rest: seq<Token>, end: string, s: State)
    requires Fits(g) && IsEnd(end) && Regular(g, e, end == ")")
    requires e.Call? || e.Product? || e.MulAdd? || e.Clamped? || e.Sample?
    ensures Loop(g, Tokens(e, rest), end, s) == Loop(g, rest, end, Emit(g, e, s))
    decreases e, 8
  {
    match e
    case Call(f, args) =>
      var behind := ArgTokens(args, [CLOSE] + rest);
      var start := s.Say(Renamed(g, f));
      LoopRenamed(g, f, [OPEN] + behind, end, s);
      WalkReadsArgs(g, args, [CLOSE] + rest, start.Say("("));
      LoopEnds(g, rest, CLOSE, EmitArgs(g, args, start.Say("(")));
      LoopGroup(g, behind, rest, end, start, EmitArgs(g, args, start.Say("(")));
    case Clamped(x) =>
      var name := s.Say("clamp");
      var start := name.Say("(");
      WalkReadsExpr(g, x, [CLOSE] + rest, ")", start);
      ReadsClamped(g, Tokens(x, [CLOSE] + rest), rest, end, s, name, start, Emit(g, x, start));
    case Product(a, b, gap) =>
      var middle := Emit(g, a, s.Say("(").Say("(")).Say(") * (");
      WalkReadsProduct(g, a, b, gap, rest, end, s, s.Say("("), s.Say("(").Say("("), middle);
      LastIsMeant(g, b, middle);
    case MulAdd(a, b, c, gap) =>
      var middle := Emit(g, a, s.Say("(").Say("(")).Say(") * (");
      var last := Emit(g, b, middle).Say(") + (");
      WalkReadsMulAdd(g, e, a, b, c, gap, rest, end, s, s.Say("("), s.Say("(").Say("("), middle, last);
      LastIsMeant(g, c, last);
    case Sample(t, access, args) => WalkReadsSample(g, t, access, args, rest, end, s, SampleStart(g, t, access, s));
  }

  /** A product with any last argument; where that does not fit, the walk has to end at no parenthesis. */
  lemma {:induction false} WalkReadsProduct(g: Shader, a: Expr, b: Expr, gap: seq<Token>, rest: seq<Token>,
                                            end: string, s: State, open: State, start: State, middle: State)
    requires Fits(g) && IsEnd(end) && Regular(g, a, false) && Regular(g, b, true) && Spaces(gap)
    requires open == s.Say("(") && start == open.Say("(") && middle == Emit(g, a, start).Say(") * (")
    requires end == ")" ==> !StartsWithParen(b)
    ensures Loop(g, [NameToken("mul")] + ([OPEN] + Tokens(a, [COMMA] + (gap + Tokens(b, [CLOSE] + rest)))), end, s)
         == Loop(g, rest, end, EmitLast(g, b, middle, "))"))
    decreases Product(a, b, gap), 7
  {
    var tb := Tokens(b, [CLOSE] + rest);
    var (after, left) := ArgumentWalk(g, b, rest, middle);
    WalkReadsExpr(g, a, [COMMA] + (gap + tb), ",", start);
    RegularAnywhere(g, b);
    NextArgument(g, COMMA, gap, b, [CLOSE] + rest);
    WalkReadsLast(g, b, rest, end, middle, "))");
    ReadsProduct(g, Tokens(a, [COMMA] + (gap + tb)), gap + tb, tb, left, end, s, open, start, Emit(g, a, start), middle,
                 after);
  }

  lemma {:induction false} WalkReadsMulAdd(g: Shader, e: Expr, a: Expr, b: Expr, c: Expr, gap: seq<Token>,
                                           rest: seq<Token>, end: string, s: State, open: State, start: State,
                                           middle: State, last: State)
    requires e == MulAdd(a, b, c, gap)
    requires Fits(g) && IsEnd(end) && Regular(g, a, false) && Regular(g, b, false) && Regular(g, c, true) && Spaces(gap)
    requires open == s.Say("(") && start == open.Say("(") && middle == Emit(g, a, start).Say(") * (")
    requires last == Emit(g, b, middle).Say(") + (")
    requires end == ")" ==> !StartsWithParen(c)
    ensures
      var tb := Tokens(b, [COMMA] + (gap + Tokens(c, [CLOSE] + rest)));
      Loop(g, [NameToken("mad")] + ([OPEN] + Tokens(a, [COMMA] + (gap + tb))), end, s)
      == Loop(g, rest, end, EmitLast(g, c, last, "))"))
    decreases e, 7
  {
    var tc := Tokens(c, [CLOSE] + rest);
    var tb := Tokens(b, [COMMA] + (gap + tc));
    var (after, left) := ArgumentWalk(g, c, rest, last);
    assert NextToken([COMMA] + (gap + tb)) == tb && NextToken([COMMA] + (gap + tc)) == tc by {
      NextArgument(g, COMMA, gap, b, [COMMA] + (gap + tc));
      RegularAnywhere(g, c);
      NextArgument(g, COMMA, gap, c, [CLOSE] + rest);
    }
    WalkReadsExpr(g, a, [COMMA] + (gap + tb), ",", start);
    assert Contents(g, tb, ",", middle) == Loop(g, [COMMA] + (gap + tc), ",", Emit(g, b, middle)) by {
      WalkReadsMiddle(g, b, [COMMA] + (gap + tc), middle);
      WalkReadsExpr(g, b, [COMMA] + (gap + tc), ",", middle);
    }
    WalkReadsLast(g, c, rest, end, last, "))");
    ReadsMulAdd(g, Tokens(a, [COMMA] + (gap + tb)), gap + tb, tb, gap + tc, tc, left, end, s, open, start,
                Emit(g, a, start), middle, Emit(g, b, middle), last, after);
  }

  lemma {:induction false} WalkReadsSample(g: Shader, t: string, access: Access, args: Args, rest: seq<Token>,
                                           end: string, s: State, start: State)
    requires Fits(g) && IsEnd(end) && Sampled(g, t, access) && args != NoArgs && RegularArgs(g, args)
    requires ArgsFit(args, end == ")") && start == SampleStart(g, t, access, s)
    ensures Loop(g, SampleTokens(t, access, ArgTokens(args, [CLOSE] + rest)), end, s)
         == Loop(g, rest, end, EmitArgs(g, args, start).Say(")"))
    decreases args, 15
  {
    var (after, left) := ArgsWalk(g, args, rest, start);
    FirstOfArgs(g, args, [CLOSE] + rest);
    WalkReadsLastArgs(g, args, rest, end, start);
    ReadsSample(g, t, access, ArgTokens(args, [CLOSE] + rest), left, end, s, start, after);
  }

  lemma FirstOfArgs(g: Shader, args: Args, rest: seq<Token>)
    requires args != NoArgs && RegularArgs(g, args)
    ensures var ts := ArgTokens(args, rest);
      && ts != [] && !ts[0].IsSpace() && !IsEnd(ts[0].text)
      && (Opens(ts[0]) ==> ts[0] == OPEN) && (ts[0] == OPEN <==> ArgsStartWithParen(args))
  {
    match args
    case LastArg(e) =>
      RegularAnywhere(g, e);
      FirstToken(g, e, rest);
    case MoreArgs(e, gap, more) =>
      RegularAnywhere(g, e);
      FirstToken(g, e, [COMMA] + (gap + ArgTokens(more, rest)));
  }

  /** How far the arguments behind the sampler are read. */
  ghost function ArgsWalk(g: Shader, args: Args, rest: seq<Token>, s: State): (State, seq<Token>) {
    match args
    case LastArg(e) => ArgumentWalk(g, e, rest, s)
    case _ => (EmitArgs(g, args, s), rest)
  }

  lemma {:induction false} WalkReadsLastArgs(g: Shader, args: Args, rest: seq<Token>, end: string, s: State)
    requires Fits(g) && IsEnd(end) && args != NoArgs && RegularArgs(g, args) && ArgsFit(args, end == ")")
    ensures var (after, left) := ArgsWalk(g, args, rest, s);
      && Contents(g, ArgTokens(args, [CLOSE] + rest), ")", s) == Walk(after, [CLOSE] + left, true)
      && Loop(g, left, end, after.Say(")")) == Loop(g, rest, end, EmitArgs(g, args, s).Say(")"))
    decreases args, 14
  {
    match args
    case LastArg(e) =>
      WalkReadsLast(g, e, rest, end, s, ")");
      LastIsMeant(g, e, s);
    case MoreArgs(_, _, _) =>
      FirstOfArgs(g, args, [CLOSE] + rest);
      WalkReadsArgs(g, args, [CLOSE] + rest, s);
      ContentsIsLoop(g, ArgTokens(args, [CLOSE] + rest), ")", s);
      LoopEnds(g, rest, CLOSE, EmitArgs(g, args, s));
  }

  /** How far the last argument is read. */
  ghost function ArgumentWalk(g: Shader, e: Expr, rest: seq<Token>, s: State): (State, seq<Token>) {
    if StartsWithParen(e) then (Emit(g, Inner(e), s.Say("(")), BehindInner(e, [CLOSE] + rest))
    else (Emit(g, e, s), rest)
  }

  /** The last argument is read that far, and the surrounding walk goes on from there. */
  lemma {:induction false} WalkReadsLast(g: Shader, e: Expr, rest: seq<Token>, end: string, s: State, closing: string)
    requires Fits(g) && IsEnd(end) && Regular(g, e, true) && (end == ")" ==> !StartsWithParen(e))
    ensures var (after, left) := ArgumentWalk(g, e, rest, s);
      && Contents(g, Tokens(e, [CLOSE] + rest), ")", s) == Walk(after, [CLOSE] + left, true)
      && Loop(g, left, end, after.Say(closing)) == Loop(g, rest, end, EmitLast(g, e, s, closing))
      && Tokens(e, [CLOSE] + rest) != []
    decreases e, 12
  {
    RegularAnywhere(g, e);
    if StartsWithParen(e) {
      ArgumentCutShort(g, e, true, [CLOSE] + rest, s);
      var after := Emit(g, Inner(e), s.Say("(")).Say(closing);
      WalkReadsBehind(g, e, [CLOSE] + rest, end, after);
      LoopPlain(g, CLOSE, rest, end, EmitBehind(g, e, after));
    } else {
      WalkReadsExpr(g, e, [CLOSE] + rest, ")", s);
      LaterArgument(g, e, CLOSE, rest, s, Emit(g, e, s));
    }
  }

  /** An argument that starts with a parenthesis is left behind that group. */
  lemma {:induction false} ArgumentCutShort(g: Shader, e: Expr, closing: bool, rest: seq<Token>, s: State)
    requires Fits(g) && Regular(g, e, closing) && StartsWithParen(e)
    ensures Contents(g, Tokens(e, rest), ")", s)
         == Walk(Emit(g, Inner(e), s.Say("(")), [CLOSE] + BehindInner(e, rest), true)
    decreases e, 11
  {
    match e
    case Paren(x) =>
      ContentsFromOpen(g, Tokens(x, [CLOSE] + rest), ")", s);
      WalkReadsExpr(g, x, [CLOSE] + rest, ")", s.Say("("));
      LoopEnds(g, rest, CLOSE, Emit(g, x, s.Say("(")));
    case Spaced(x, ws) => ArgumentCutShort(g, x, closing, ws + rest, s);
    case Binary(op, a, b, gap) => ArgumentCutShort(g, a, closing, [Token(Other, op)] + (gap + Tokens(b, rest)), s);
    case Member(x, n) => ArgumentCutShort(g, x, closing, [DOT] + ([NameToken(n)] + rest), s);
    case Index(x, i) => ArgumentCutShort(g, x, closing, [LEFT] + Tokens(i, [RIGHT] + rest), s);
  }

  /** What comes behind the first group is read by the surrounding walk. */
  lemma {:induction false} WalkReadsBehind(g: Shader, e: Expr, rest: seq<Token>, end: string, s: State)
    requires Fits(g) && IsEnd(end) && Regular(g, e, end == ")") && StartsWithParen(e)
    ensures Loop(g, BehindInner(e, rest), end, s) == Loop(g, rest, end, EmitBehind(g, e, s))
    decreases e, 11
  {
    match e
    case Paren(_) =>
    case Spaced(x, ws) =>
      WalkReadsBehind(g, x, ws + rest, end, s);
      LoopSpaces(g, ws, rest, end, EmitBehind(g, x, s));
    case Binary(op, a, b, gap) =>
      var after := EmitBehind(g, a, s);
      WalkReadsBehind(g, a, [Token(Other, op)] + (gap + Tokens(b, rest)), end, s);
      LoopOperator(g, op, gap, Tokens(b, rest), end, after);
      WalkReadsExpr(g, b, rest, end, after.Say(op).Say(Text(gap)));
    case Member(x, n) =>
      WalkReadsBehind(g, x, [DOT] + ([NameToken(n)] + rest), end, s);
      LoopMember(g, n, rest, end, EmitBehind(g, x, s));
    case Index(x, i) =>
      var inside := EmitBehind(g, x, s).Say("[");
      WalkReadsBehind(g, x, [LEFT] + Tokens(i, [RIGHT] + rest), end, s);
      WalkReadsExpr(g, i, [RIGHT] + rest, end, inside);
      LoopIndex(g, Tokens(i, [RIGHT] + rest), rest, end, EmitBehind(g, x, s), Emit(g, i, inside));
  }

  /** An argument that ends at a comma is read whole even if it starts with a parenthesis: that one is copied, and so is
      the one that closes it. */
  lemma {:induction false} WalkReadsMiddle(g: Shader, e: Expr, rest: seq<Token>, s: State)
    requires Fits(g) && Regular(g, e, false)
    ensures Contents(g, Tokens(e, rest), ",", s) == Loop(g, Tokens(e, rest), ",", s)
    ensures Tokens(e, rest) != []
    decreases e, 11
  {
    if !StartsWithParen(e) {
      FirstToken(g, e, rest);
      ContentsIsLoop(g, Tokens(e, rest), ",", s);
    } else {
      match e
      case Paren(x) =>
        var ts := Tokens(x, [CLOSE] + rest);
        var after := Emit(g, x, s.Say("("));
        ContentsFromOpen(g, ts, ",", s);
        RegularAnywhere(g, x);
        WalkReadsExpr(g, x, [CLOSE] + rest, ",", s.Say("("));
        LoopPlain(g, CLOSE, rest, ",", after);
        WalkReadsExpr(g, x, [CLOSE] + rest, ")", s.Say("("));
        LoopEnds(g, rest, CLOSE, after);
        LoopGroup(g, ts, rest, ",", s, after);
      case Spaced(x, ws) => WalkReadsMiddle(g, x, ws + rest, s);
      case Binary(op, a, b, gap) => WalkReadsMiddle(g, a, [Token(Other, op)] + (gap + Tokens(b, rest)), s);
      case Member(x, n) => WalkReadsMiddle(g, x, [DOT] + ([NameToken(n)] + rest), s);
      case Index(x, i) => WalkReadsMiddle(g, x, [LEFT] + Tokens(i, [RIGHT] + rest), s);
    }
  }

  lemma {:induction false} WalkReadsArgs(g: Shader, args: Args, rest: seq<Token>, s: State)
    requires Fits(g) && RegularArgs(g, args)
    ensures Loop(g, ArgTokens(args, rest), ")", s) == Loop(g, rest, ")", EmitArgs(g, args, s))
    decreases args, 13
  {
    match args
    case NoArgs =>
    case LastArg(e) => WalkReadsExpr(g, e, rest, ")", s);
    case MoreArgs(e, gap, more) =>
      var behind := gap + ArgTokens(more, rest);
      WalkReadsExpr(g, e, [COMMA] + behind, ")", s);
      LoopPlain(g, COMMA, behind, ")", Emit(g, e, s));
      LoopSpaces(g, gap, ArgTokens(more, rest), ")", Emit(g, e, s).Say(","));
      WalkReadsArgs(g, more, rest, Emit(g, e, s).Say(",").Say(Text(gap)));
  }

  lemma MulCode(g: Shader, a: seq<Token>, behindA: seq<Token>, b: seq<Token>, rest: seq<Token>, s: State,
                afterA: State, afterB: State)
    requires Fits(g) && NextToken([NameToken("mul")] + ([OPEN] + a)) == [OPEN] + a
    requires Contents(g, [OPEN] + a, ",", s.Say("(")) == Walk(afterA, behindA, true) && NextToken(behindA) == b
    requires Contents(g, b, ")", afterA.Say(") * (")) == Walk(afterB, [CLOSE] + rest, true)
    ensures Intrinsic(g, [NameToken("mul")] + ([OPEN] + a), s) == Walk(afterB.Say("))"), [CLOSE] + rest, true)
  {
    assert Mul(g, [NameToken("mul")] + ([OPEN] + a), s) == Walk(afterB.Say("))"), [CLOSE] + rest, true);
  }

  lemma MadCode(g: Shader, a: seq<Token>, behindA: seq<Token>, b: seq<Token>, behindB: seq<Token>, c: seq<Token>,
                rest: seq<Token>, s: State, afterA: State, afterB: State, afterC: State)
    requires Fits(g) && NextToken([NameToken("mad")] + ([OPEN] + a)) == [OPEN] + a
    requires Contents(g, [OPEN] + a, ",", s.Say("(")) == Walk(afterA, behindA, true) && NextToken(behindA) == b
    requires Contents(g, b, ",", afterA.Say(") * (")) == Walk(afterB, behindB, true) && NextToken(behindB) == c
    requires Contents(g, c, ")", afterB.Say(") + (")) == Walk(afterC, [CLOSE] + rest, true)
    ensures Intrinsic(g, [NameToken("mad")] + ([OPEN] + a), s) == Walk(afterC.Say("))"), [CLOSE] + rest, true)
  {
    assert Mad(g, [NameToken("mad")] + ([OPEN] + a), s) == Walk(afterC.Say("))"), [CLOSE] + rest, true);
  }

  lemma SaturateCode(g: Shader, ts: seq<Token>, rest: seq<Token>, s: State, after: State)
    requires Fits(g) && NextToken([NameToken("saturate")] + ([OPEN] + ts)) == [OPEN] + ts
    requires Contents(g, [OPEN] + ts, ")", s.Say("clamp")) == Walk(after, [CLOSE] + rest, true)
    ensures Intrinsic(g, [NameToken("saturate")] + ([OPEN] + ts), s)
         == Walk(after.Say(", 0.0, 1.0)"), [CLOSE] + rest, true)
  {
    assert Saturate(g, [NameToken("saturate")] + ([OPEN] + ts), s)
        == Walk(after.Say(", 0.0, 1.0)"), [CLOSE] + rest, true);
  }

  lemma ReadsProduct(g: Shader, a: seq<Token>, behind: seq<Token>, b: seq<Token>, rest: seq<Token>,
                     end: string, s: State, open: State, start: State, afterA: State, middle: State, afterB: State)
    requires Fits(g) && IsEnd(end)
    requires open == s.Say("(") && start == open.Say("(") && middle == afterA.Say(") * (")
    requires Loop(g, a, ",", start) == Loop(g, [COMMA] + behind, ",", afterA) && NextToken([COMMA] + behind) == b
    requires Contents(g, b, ")", middle) == Walk(afterB, [CLOSE] + rest, true)
    ensures Loop(g, [NameToken("mul")] + ([OPEN] + a), end, s) == Loop(g, rest, end, afterB.Say("))"))
  {
    NextIs(NameToken("mul"), OPEN, a);
    FirstArgument(g, a, COMMA, behind, open, afterA);
    MulCode(g, a, [COMMA] + behind, b, rest, s, afterA, afterB);
    LoopSpecial(g, "mul", [OPEN] + a, rest, end, s, afterB.Say("))"));
  }

  lemma ReadsMulAdd(g: Shader, a: seq<Token>, behind: seq<Token>, b: seq<Token>, behind': seq<Token>, c: seq<Token>,
                    rest: seq<Token>, end: string, s: State, open: State, start: State,
                    afterA: State, middle: State, afterB: State, last: State, afterC: State)
    requires Fits(g) && IsEnd(end)
    requires open == s.Say("(") && start == open.Say("(")
    requires middle == afterA.Say(") * (") && last == afterB.Say(") + (")
    requires Loop(g, a, ",", start) == Loop(g, [COMMA] + behind, ",", afterA) && NextToken([COMMA] + behind) == b
    requires Contents(g, b, ",", middle) == Loop(g, [COMMA] + behind', ",", afterB) && NextToken([COMMA] + behind') == c
    requires Contents(g, c, ")", last) == Walk(afterC, [CLOSE] + rest, true)
    ensures Loop(g, [NameToken("mad")] + ([OPEN] + a), end, s) == Loop(g, rest, end, afterC.Say("))"))
  {
    NextIs(NameToken("mad"), OPEN, a);
    FirstArgument(g, a, COMMA, behind, open, afterA);
    LoopEnds(g, behind', COMMA, afterB);
    MadCode(g, a, [COMMA] + behind, b, [COMMA] + behind', c, rest, s, afterA, afterB, afterC);
    LoopSpecial(g, "mad", [OPEN] + a, rest, end, s, afterC.Say("))"));
  }

  lemma ReadsClamped(g: Shader, ts: seq<Token>, rest: seq<Token>, end: string, s: State, name: State, start: State,
                     after: State)
    requires Fits(g) && IsEnd(end) && name == s.Say("clamp") && start == name.Say("(")
    requires Loop(g, ts, ")", start) == Loop(g, [CLOSE] + rest, ")", after)
    ensures Loop(g, [NameToken("saturate")] + ([OPEN] + ts), end, s) == Loop(g, rest, end, after.Say(", 0.0, 1.0)"))
  {
    NextIs(NameToken("saturate"), OPEN, ts);
    FirstArgument(g, ts, CLOSE, rest, name, after);
    SaturateCode(g, ts, rest, s, after);
    LoopSpecial(g, "saturate", [OPEN] + ts, rest, end, s, after.Say(", 0.0, 1.0)"));
  }

  lemma ReadsSample(g: Shader, t: string, access: Access, coord: seq<Token>, rest: seq<Token>, end: string, s: State,
                    start: State, after: State)
    requires Fits(g) && Sampled(g, t, access) && IsEnd(end) && start == SampleStart(g, t, access, s)
    requires coord != [] && !coord[0].IsSpace() && Contents(g, coord, ")", start) == Walk(after, [CLOSE] + rest, true)
    ensures Loop(g, SampleTokens(t, access, coord), end, s) == Loop(g, rest, end, after.Say(")"))
  {
    SampleCode(g, t, access, coord, rest, s, start, after);
    LoopSpecial(g, t, [DOT] + ([NameToken(Method(access))] + AccessTokens(access, coord)), rest, end, s,
                after.Say(")"));
  }

  /** From the method's name to the comma behind the sampler, or to the parenthesis. */
  function CallRest(access: Access, ts: seq<Token>): seq<Token> {
    match access
    case Filtered(_, _, gap) => [COMMA] + (gap + ts)
    case Direct => [OPEN] + ts
  }

  lemma CallRestNext(access: Access, ts: seq<Token>)
    requires ts != [] && !ts[0].IsSpace() && (access.Filtered? ==> Spaces(access.gap))
    ensures NextToken(CallRest(access, ts)) == ts
  {
    match access
    case Filtered(_, _, gap) =>
      assert ([COMMA] + (gap + ts))[1..] == gap + ts;
      SpacesSkipped(gap, ts);
    case Direct => assert ([OPEN] + ts)[1..] == ts;
  }

  lemma SampleCall(g: Shader, name: Token, t: string, access: Access, ts: seq<Token>, s: State)
    requires Sampled(g, t, access)
    ensures var param := g.params[ParamIndex(g.params, t).value];
      TextureCall(g, [name] + AccessTokens(access, ts), param, GlslFunction(g, t, access), access.Filtered?, s)
      == Walk(SampleStart(g, t, access, s), CallRest(access, ts), true)
  {
    match access
    case Filtered(_, smp, gap) =>
      NextIs(name, OPEN, [NameToken(smp)] + ([COMMA] + (gap + ts)));
      NextIs(OPEN, NameToken(smp), [COMMA] + (gap + ts));
      NextIs(NameToken(smp), COMMA, gap + ts);
    case Direct => NextIs(name, OPEN, ts);
  }

  /** The walker's table of methods. */
  lemma MethodsFit(g: Shader, t: string, access: Access)
    requires IsTexture(g, t)
    ensures TextureFunction(g.params[ParamIndex(g.params, t).value], Method(access))
         == Some((GlslFunction(g, t, access), access.Filtered?))
  {
  }

  lemma SampleCode(g: Shader, t: string, access: Access, coord: seq<Token>, rest: seq<Token>, s: State, start: State,
                   after: State)
    requires Fits(g) && Sampled(g, t, access) && start == SampleStart(g, t, access, s)
    requires coord != [] && !coord[0].IsSpace() && Contents(g, coord, ")", start) == Walk(after, [CLOSE] + rest, true)
    ensures Intrinsic(g, SampleTokens(t, access, coord), s) == Walk(after.Say(")"), [CLOSE] + rest, true)
  {
    var param, name := g.params[ParamIndex(g.params, t).value], NameToken(Method(access));
    NextIs(NameToken(t), DOT, [name] + AccessTokens(access, coord));
    NextIs(DOT, name, AccessTokens(access, coord));
    MethodsFit(g, t, access);
    SampleCall(g, name, t, access, coord, s);
    CallRestNext(access, coord);
    TextureRead(g, SampleTokens(t, access, coord), param, [name] + AccessTokens(access, coord),
                GlslFunction(g, t, access), access.Filtered?, CallRest(access, coord), coord, [CLOSE] + rest, s, start,
                after);
  }

  lemma TextureRead(g: Shader, ts: seq<Token>, param: Param, named: seq<Token>, call: string, sampler: bool,
                    behind: seq<Token>, coord: seq<Token>, rest: seq<Token>, s: State, start: State, after: State)
    requires ts != [] && At(NextToken(ts), ".") && NextToken(NextToken(ts)) == named != []
    requires TextureFunction(param, named[0].text) == Some((call, sampler))
    requires TextureCall(g, named, param, call, sampler, s) == Walk(start, behind, true)
    requires NextToken(behind) == coord != [] && Contents(g, coord, ")", start) == Walk(after, rest, true)
    ensures TextureCode(g, ts, param, s) == Walk(after.Say(")"), rest, true)
  {
  }

  // ----- The text that is written -----

  function Print(e: Expr): string {
    match e
    case Ident(n) => n
    case Number(t) => t
    case Spaced(x, ws) => Print(x) + Text(ws)
    case Paren(x) => "(" + (Print(x) + ")")
    case Binary(op, a, b, gap) => Print(a) + (op + (Text(gap) + Print(b)))
    case Unary(op, x) => op + Print(x)
    case Member(x, n) => Print(x) + ("." + n)
    case Index(x, i) => Print(x) + ("[" + (Print(i) + "]"))
    case Call(f, args) => f + ("(" + (PrintArgs(args) + ")"))
    case Product(a, b, gap) => "mul" + ("(" + (Print(a) + ("," + (Text(gap) + (Print(b) + ")")))))
    case MulAdd(a, b, c, gap) =>
      "mad" + ("(" + (Print(a) + ("," + (Text(gap) + (Print(b) + ("," + (Text(gap) + (Print(c) + ")"))))))))
    case Clamped(x) => "saturate" + ("(" + (Print(x) + ")"))
    case Sample(t, access, args) => t + ("." + (Method(access) + PrintAccess(access, PrintArgs(args) + ")")))
  }

  function PrintAccess(access: Access, behind: string): string {
    match access
    case Filtered(_, smp, gap) => "(" + (smp + ("," + (Text(gap) + behind)))
    case Direct => "(" + behind
  }

  function PrintArgs(args: Args): string {
    match args
    case NoArgs => ""
    case LastArg(e) => Print(e)
    case MoreArgs(e, gap, rest) => Print(e) + ("," + (Text(gap) + PrintArgs(rest)))
  }

  lemma Assoc(a: string, b: string, c: string)
    ensures (a + b) + c == a + (b + c)
  {
  }

  lemma TextCons(t: Token, ts: seq<Token>)
    ensures Text([t] + ts) == t.text + Text(ts)
  {
    assert ([t] + ts)[1..] == ts;
  }

  lemma {:induction false} TextAppend(ws: seq<Token>, ts: seq<Token>)
    ensures Text(ws + ts) == Text(ws) + Text(ts)
    decreases |ws|
  {
    if ws == [] {
      assert [] + ts == ts;
    } else {
      assert (ws + ts)[1..] == ws[1..] + ts;
      TextAppend(ws[1..], ts);
      Assoc(ws[0].text, Text(ws[1..]), Text(ts));
    }
  }

  /** The text of the translation is what the walk adds. */
  lemma {:induction false} EmitPrints(g: Shader, e: Expr, s: State)
    ensures Emit(g, e, s) ==
      State(s.out + Print(Translate(g, e)), s.counter, Bound(g, e, s.samplerIds))
    decreases e, 1
  {
    match e
    case Ident(_) =>
    case Number(_) =>
    case Spaced(x, ws) =>
      EmitPrints(g, x, s);
      Assoc(s.out, Print(Translate(g, x)), Text(ws));
    case Paren(x) =>
      EmitPrints(g, x, s.Say("("));
      Wrapped(s.out, "(", Print(Translate(g, x)), ")");
    case Binary(op, a, b, gap) =>
      var pa, pb := Print(Translate(g, a)), Print(Translate(g, b));
      EmitPrints(g, a, s);
      EmitPrints(g, b, Emit(g, a, s).Say(op).Say(Text(gap)));
      Chained(s.out, pa, op, Text(gap), pb);
    case Unary(op, x) =>
      EmitPrints(g, x, s.Say(op));
      Assoc(s.out, op, Print(Translate(g, x)));
    case Index(x, i) =>
      EmitPrints(g, x, s);
      EmitPrints(g, i, Emit(g, x, s).Say("["));
      Chained(s.out, Print(Translate(g, x)), "[", Print(Translate(g, i)), "]");
    case Member(x, n) =>
      EmitPrints(g, x, s);
      Wrapped(s.out, Print(Translate(g, x)), ".", n);
    case Call(f, args) =>
      EmitArgsPrints(g, args, s.Say(Renamed(g, f)).Say("("));
      Chained(s.out, Renamed(g, f), "(", PrintArgs(TranslateArgs(g, args)), ")");
    case _ => EmitIntrinsicPrints(g, e, s);
  }

  lemma Wrapped(out: string, a: string, b: string, c: string)
    ensures ((out + a) + b) + c == out + (a + (b + c))
  {
  }

  lemma Chained(out: string, a: string, b: string, c: string, d: string)
    ensures (((out + a) + b) + c) + d == out + (a + (b + (c + d)))
  {
  }

  lemma {:induction false} EmitArgsPrints(g: Shader, args: Args, s: State)
    ensures EmitArgs(g, args, s) ==
      State(s.out + PrintArgs(TranslateArgs(g, args)), s.counter, BoundArgs(g, args, s.samplerIds))
    decreases args, 1
  {
    match args
    case NoArgs =>
    case LastArg(e) => EmitPrints(g, e, s);
    case MoreArgs(e, gap, more) =>
      EmitPrints(g, e, s);
      EmitArgsPrints(g, more, Emit(g, e, s).Say(",").Say(Text(gap)));
      Chained(s.out, Print(Translate(g, e)), ",", Text(gap), PrintArgs(TranslateArgs(g, more)));
  }

  lemma {:induction false} EmitIntrinsicPrints(g: Shader, e: Expr, s: State)
    requires e.Product? || e.MulAdd? || e.Clamped? || e.Sample?
    ensures Emit(g, e, s) ==
      State(s.out + Print(Translate(g, e)), s.counter, Bound(g, e, s.samplerIds))
    decreases e, 0
  {
    SpaceText();
    match e
    case Product(a, b, _) =>
      var start := s.Say("(").Say("(");
      EmitPrints(g, a, start);
      EmitPrints(g, b, Emit(g, a, start).Say(") * ("));
      PrintStarred(Translate(g, a), Translate(g, b));
      ProductText(s.out, Print(Translate(g, a)), Print(Translate(g, b)));
    case MulAdd(a, b, c, _) =>
      var start := s.Say("(").Say("(");
      var middle := Emit(g, a, start).Say(") * (");
      EmitPrints(g, a, start);
      EmitPrints(g, b, middle);
      EmitPrints(g, c, Emit(g, b, middle).Say(") + ("));
      PrintStarred(Translate(g, a), Translate(g, b));
      PrintSum(Spaced(Starred(Translate(g, a), Translate(g, b)), ONE_SPACE), Translate(g, c));
      MulAddText(s.out, Print(Translate(g, a)), Print(Translate(g, b)), Print(Translate(g, c)));
    case Clamped(x) =>
      EmitPrints(g, x, s.Say("clamp").Say("("));
      PrintClamp(Translate(g, x));
      ClampText(s.out, Print(Translate(g, x)));
    case Sample(t, access, args) =>
      EmitArgsPrints(g, args, SampleStart(g, t, access, s));
      PrintTexture(GlslFunction(g, t, access), t, TranslateArgs(g, args));
      SampleText(s.out, GlslFunction(g, t, access), t, PrintArgs(TranslateArgs(g, args)));
  }

  lemma PrintStarred(a: Expr, b: Expr)
    ensures Print(Starred(a, b)) == (("(" + (Print(a) + ")")) + " ") + ("*" + (" " + ("(" + (Print(b) + ")"))))
    ensures Print(Spaced(Starred(a, b), ONE_SPACE)) == Print(Starred(a, b)) + " "
  {
    SpaceText();
    assert Print(Spaced(Paren(a), ONE_SPACE)) == ("(" + (Print(a) + ")")) + " ";
    assert Print(Paren(b)) == "(" + (Print(b) + ")");
  }

  lemma PrintSum(x: Expr, c: Expr)
    ensures Print(Paren(Binary("+", x, Paren(c), ONE_SPACE)))
         == "(" + ((Print(x) + ("+" + (" " + ("(" + (Print(c) + ")"))))) + ")")
  {
    SpaceText();
    assert Print(Paren(c)) == "(" + (Print(c) + ")");
  }

  lemma PrintClamp(x: Expr)
    ensures Print(Call("clamp", MoreArgs(x, ONE_SPACE, ZeroAndOne())))
         == "clamp" + ("(" + ((Print(x) + ("," + (" " + ("0.0" + ("," + (" " + "1.0")))))) + ")"))
  {
    SpaceText();
    assert PrintArgs(LastArg(Number("1.0"))) == "1.0";
    assert PrintArgs(ZeroAndOne()) == "0.0" + ("," + (" " + "1.0"));
  }

  lemma PrintTexture(f: string, t: string, args: Args)
    ensures Print(Call(f, MoreArgs(Ident(t), ONE_SPACE, args)))
         == f + ("(" + ((t + ("," + (" " + PrintArgs(args)))) + ")"))
  {
    SpaceText();
    assert PrintArgs(MoreArgs(Ident(t), ONE_SPACE, args)) == t + ("," + (" " + PrintArgs(args)));
  }

  lemma SpaceText()
    ensures Text(ONE_SPACE) == " "
  {
    TextCons(Token(SpaceTab, " "), []);
  }

  lemma ProductText(out: string, a: string, b: string)
    ensures ((((out + "(") + "(") + a) + ") * (") + b + "))"
         == out + ("(" + (((("(" + (a + ")")) + " ") + ("*" + (" " + ("(" + (b + ")"))))) + ")"))
  {
    assert ") * (" == ")" + " " + "*" + " " + "(" && "))" == ")" + ")";
  }

  lemma MulAddText(out: string, a: string, b: string, c: string)
    ensures ((((((out + "(") + "(") + a) + ") * (") + b) + ") + (") + c + "))"
         == out + ("(" + ((((((("(" + (a + ")")) + " ") + ("*" + (" " + ("(" + (b + ")"))))) + " ")
                          + ("+" + (" " + ("(" + (c + ")")))))) + ")"))
  {
    assert ") * (" == ")" + " " + "*" + " " + "(" && ") + (" == ")" + " " + "+" + " " + "(" && "))" == ")" + ")";
  }

  lemma ClampText(out: string, x: string)
    ensures (((out + "clamp") + "(") + x) + ", 0.0, 1.0)"
         == out + ("clamp" + ("(" + ((x + ("," + (" " + ("0.0" + ("," + (" " + "1.0")))))) + ")")))
  {
    assert ", 0.0, 1.0)" == "," + " " + "0.0" + "," + " " + "1.0" + ")";
  }

  lemma SampleText(out: string, f: string, t: string, args: string)
    ensures (((((out + f) + "(") + t) + ", ") + args) + ")"
         == out + (f + ("(" + ((t + ("," + (" " + args))) + ")")))
  {
    assert ", " == "," + " ";
  }

  /** The tokens spell the expression. */
  lemma {:induction false} TokensSpell(e: Expr, rest: seq<Token>)
    ensures Text(Tokens(e, rest)) == Print(e) + Text(rest)
    decreases e
  {
    match e
    case Ident(n) => TextCons(NameToken(n), rest);
    case Number(t) => TextCons(Token(Num, t), rest);
    case Spaced(x, ws) =>
      TokensSpell(x, ws + rest);
      TextAppend(ws, rest);
      Assoc(Print(x), Text(ws), Text(rest));
    case Paren(x) =>
      TokensSpell(x, [CLOSE] + rest);
      TextCons(CLOSE, rest);
      TextCons(OPEN, Tokens(x, [CLOSE] + rest));
      Wrapped("", "(", Print(x), ")" + Text(rest));
      Assoc(Print(x), ")", Text(rest));
      Assoc("(", Print(x) + ")", Text(rest));
    case Binary(op, a, b, gap) =>
      TokensSpell(b, rest);
      TextAppend(gap, Tokens(b, rest));
      TextCons(Token(Other, op), gap + Tokens(b, rest));
      TokensSpell(a, [Token(Other, op)] + (gap + Tokens(b, rest)));
      Spelled4(Print(a), op, Text(gap), Print(b), Text(rest));
    case Unary(op, x) =>
      TextCons(Token(Other, op), Tokens(x, rest));
      TokensSpell(x, rest);
      Assoc(op, Print(x), Text(rest));
    case Index(x, i) =>
      var inside := Tokens(i, [RIGHT] + rest);
      TextCons(RIGHT, rest);
      TokensSpell(i, [RIGHT] + rest);
      TextCons(LEFT, inside);
      TokensSpell(x, [LEFT] + inside);
      Spelled4(Print(x), "[", Print(i), "]", Text(rest));
    case Member(x, n) =>
      TextCons(NameToken(n), rest);
      TextCons(DOT, [NameToken(n)] + rest);
      TokensSpell(x, [DOT] + ([NameToken(n)] + rest));
      Spelled3(Print(x), ".", n, Text(rest));
    case Call(f, args) =>
      var inner := ArgTokens(args, [CLOSE] + rest);
      ArgTokensSpell(args, [CLOSE] + rest);
      TextCons(CLOSE, rest);
      TextCons(OPEN, inner);
      TextCons(NameToken(f), [OPEN] + inner);
      Spelled4(f, "(", PrintArgs(args), ")", Text(rest));
    case Product(a, b, gap) =>
      var tb := Tokens(b, [CLOSE] + rest);
      var ta := Tokens(a, [COMMA] + (gap + tb));
      TextCons(CLOSE, rest);
      TokensSpell(b, [CLOSE] + rest);
      TextAppend(gap, tb);
      TextCons(COMMA, gap + tb);
      TokensSpell(a, [COMMA] + (gap + tb));
      TextCons(OPEN, ta);
      TextCons(NameToken("mul"), [OPEN] + ta);
      Spelled4(",", Text(gap), Print(b), ")", Text(rest));
      Spelled4("mul", "(", Print(a), "," + (Text(gap) + (Print(b) + ")")), Text(rest));
    case MulAdd(a, b, c, gap) =>
      var tc := Tokens(c, [CLOSE] + rest);
      var tb := Tokens(b, [COMMA] + (gap + tc));
      var ta := Tokens(a, [COMMA] + (gap + tb));
      TextCons(CLOSE, rest);
      TokensSpell(c, [CLOSE] + rest);
      TextAppend(gap, tc);
      TextCons(COMMA, gap + tc);
      TokensSpell(b, [COMMA] + (gap + tc));
      TextAppend(gap, tb);
      TextCons(COMMA, gap + tb);
      TokensSpell(a, [COMMA] + (gap + tb));
      TextCons(OPEN, ta);
      TextCons(NameToken("mad"), [OPEN] + ta);
      Spelled4(",", Text(gap), Print(c), ")", Text(rest));
      Spelled4(",", Text(gap), Print(b), "," + (Text(gap) + (Print(c) + ")")), Text(rest));
      Spelled4("mad", "(", Print(a), "," + (Text(gap) + (Print(b) + ("," + (Text(gap) + (Print(c) + ")"))))),
               Text(rest));
    case Clamped(x) =>
      TextCons(CLOSE, rest);
      TokensSpell(x, [CLOSE] + rest);
      TextCons(OPEN, Tokens(x, [CLOSE] + rest));
      TextCons(NameToken("saturate"), [OPEN] + Tokens(x, [CLOSE] + rest));
      Spelled4("saturate", "(", Print(x), ")", Text(rest));
    case Sample(t, access, args) =>
      ArgTokensSpell(args, [CLOSE] + rest);
      SampleSpells(t, access, ArgTokens(args, [CLOSE] + rest), PrintArgs(args), rest);
  }

  lemma SampleSpells(t: string, access: Access, ts: seq<Token>, args: string, rest: seq<Token>)
    requires Text(ts) == args + Text([CLOSE] + rest)
    ensures Text(SampleTokens(t, access, ts))
         == (t + ("." + (Method(access) + PrintAccess(access, args + ")")))) + Text(rest)
  {
    TextCons(CLOSE, rest);
    Assoc(args, ")", Text(rest));
    AccessSpells(access, ts, args + ")", rest);
    TextCons(NameToken(Method(access)), AccessTokens(access, ts));
    TextCons(DOT, [NameToken(Method(access))] + AccessTokens(access, ts));
    TextCons(NameToken(t), [DOT] + ([NameToken(Method(access))] + AccessTokens(access, ts)));
    Spelled4(t, ".", Method(access), PrintAccess(access, args + ")"), Text(rest));
  }

  lemma AccessSpells(access: Access, ts: seq<Token>, behind: string, rest: seq<Token>)
    requires Text(ts) == behind + Text(rest)
    ensures Text(AccessTokens(access, ts)) == PrintAccess(access, behind) + Text(rest)
  {
    match access
    case Filtered(_, smp, gap) =>
      TextAppend(gap, ts);
      TextCons(COMMA, gap + ts);
      TextCons(NameToken(smp), [COMMA] + (gap + ts));
      TextCons(OPEN, [NameToken(smp)] + ([COMMA] + (gap + ts)));
      Assoc(Text(gap), behind, Text(rest));
      Spelled3("(", smp, "," + (Text(gap) + behind), Text(rest));
      Assoc(",", Text(gap) + behind, Text(rest));
    case Direct =>
      TextCons(OPEN, ts);
      Assoc("(", behind, Text(rest));
  }

  lemma {:induction false} ArgTokensSpell(args: Args, rest: seq<Token>)
    ensures Text(ArgTokens(args, rest)) == PrintArgs(args) + Text(rest)
    decreases args
  {
    match args
    case NoArgs =>
    case LastArg(e) => TokensSpell(e, rest);
    case MoreArgs(e, gap, more) =>
      var tail := ArgTokens(more, rest);
      ArgTokensSpell(more, rest);
      TextAppend(gap, tail);
      TextCons(COMMA, gap + tail);
      TokensSpell(e, [COMMA] + (gap + tail));
      Spelled4(Print(e), ",", Text(gap), PrintArgs(more), Text(rest));
  }

  lemma Spelled3(a: string, b: string, c: string, rest: string)
    ensures (a + (b + c)) + rest == a + (b + (c + rest))
  {
  }

  lemma Spelled4(a: string, b: string, c: string, d: string, rest: string)
    ensures (a + (b + (c + d))) + rest == a + (b + (c + (d + rest)))
  {
  }

  // ----- Last arguments: exactly when -----

  /** A last argument is read up to its own closing parenthesis exactly if it does not start with one. */
  lemma ArgumentReadWhole(g: Shader, e: Expr, rest: seq<Token>, s: State)
    requires Fits(g) && Regular(g, e, true)
    ensures Contents(g, Tokens(e, [CLOSE] + rest), ")", s).rest == [CLOSE] + rest <==> !StartsWithParen(e)
  {
    WalkReadsLast(g, e, rest, "}", s, ")");
    if StartsWithParen(e) {
      assert |[CLOSE] + BehindInner(e, [CLOSE] + rest)| > |[CLOSE] + rest|;
    }
  }

  /** The text behind the first group. */
  ghost function TailText(g: Shader, e: Expr): string
    requires StartsWithParen(e)
    decreases e
  {
    match e
    case Spaced(x, ws) => TailText(g, x) + Text(ws)
    case Paren(_) => ""
    case Binary(op, a, b, gap) => TailText(g, a) + op + Text(gap) + Print(Translate(g, b))
    case Member(x, n) => TailText(g, x) + "." + n
    case Index(x, i) => TailText(g, x) + "[" + Print(Translate(g, i)) + "]"
    case Unary(_, _) => ""
  }

  lemma {:induction false} BehindPrints(g: Shader, e: Expr, closing: bool, s: State)
    requires Regular(g, e, closing) && StartsWithParen(e)
    ensures EmitBehind(g, e, s).out == s.out + TailText(g, e)
    decreases e
  {
    match e
    case Spaced(x, ws) => BehindPrints(g, x, closing, s);
    case Paren(_) =>
    case Binary(op, a, b, gap) =>
      BehindPrints(g, a, closing, s);
      BinaryBehind(g, op, a, b, gap, s);
    case Member(x, n) => BehindPrints(g, x, closing, s);
    case Index(x, i) =>
      BehindPrints(g, x, closing, s);
      EmitPrints(g, i, EmitBehind(g, x, s).Say("["));
  }

  lemma BinaryBehind(g: Shader, op: string, a: Expr, b: Expr, gap: seq<Token>, s: State)
    requires StartsWithParen(a) && EmitBehind(g, a, s).out == s.out + TailText(g, a)
    ensures EmitBehind(g, Binary(op, a, b, gap), s).out == s.out + TailText(g, Binary(op, a, b, gap))
  {
    EmitPrints(g, b, EmitBehind(g, a, s).Say(op).Say(Text(gap)));
  }

  /** That text is empty for a whole group only, and does not start with a parenthesis. */
  lemma {:induction false} TailStarts(g: Shader, e: Expr, closing: bool)
    requires Regular(g, e, closing) && StartsWithParen(e)
    ensures TailText(g, e) == "" <==> Whole(e)
    ensures TailText(g, e) != "" ==> TailText(g, e)[0] != ')'
    decreases e
  {
    match e
    case Spaced(x, ws) =>
      TailStarts(g, x, closing);
      if ws == [] {
        assert TailText(g, x) + "" == TailText(g, x);
      } else {
        assert Text(ws)[0] == ws[0].text[0];
      }
    case Paren(_) =>
    case Binary(_, a, _, _) => TailStarts(g, a, closing);
    case Member(x, _) => TailStarts(g, x, closing);
    case Index(x, _) => TailStarts(g, x, closing);
  }

  lemma ParenMoves(out: string, tail: string)
    requires tail != "" ==> tail[0] != ')'
    ensures ((out + "))") + tail) + ")" == ((out + ")") + tail) + "))" <==> tail == ""
  {
    var a, b := ((out + "))") + tail) + ")", ((out + ")") + tail) + "))";
    if tail == "" {
      TwoParens(out);
    } else {
      assert a[|out| + 1] == ')' && b[|out| + 1] == tail[0];
    }
  }

  /** The two parentheses end up where they are meant exactly if the last argument fits. */
  lemma LastMeantExactly(g: Shader, e: Expr, s: State)
    requires Regular(g, e, true)
    ensures EmitLast(g, e, s, "))").out == Emit(g, e, s).Say("))").out <==> LastFits(e, false)
  {
    LastIsMeant(g, e, s);
    if StartsWithParen(e) {
      var after := Emit(g, Inner(e), s.Say("("));
      EmitInParts(g, e, true, s);
      BehindPrints(g, e, true, after.Say(")"));
      BehindPrints(g, e, true, after.Say("))"));
      TailStarts(g, e, true);
      ParenMoves(after.out, TailText(g, e));
    }
  }

  /** A product in a walk that ends at no parenthesis: the text is the translation exactly if the second argument does
      not start with a parenthesis, or is one whole group. */
  lemma ProductTextExact(g: Shader, a: Expr, b: Expr, gap: seq<Token>, rest: seq<Token>, end: string, s: State,
                         open: State, start: State, middle: State, written: State)
    requires Fits(g) && Regular(g, a, false) && Regular(g, b, true) && Spaces(gap) && IsEnd(end) && end != ")"
    requires open == s.Say("(") && start == open.Say("(") && middle == Emit(g, a, start).Say(") * (")
    requires written == EmitLast(g, b, middle, "))")
    ensures Loop(g, [NameToken("mul")] + ([OPEN] + Tokens(a, [COMMA] + (gap + Tokens(b, [CLOSE] + rest)))), end, s)
         == Loop(g, rest, end, written)
    ensures written.out == s.out + Print(Translate(g, Product(a, b, gap))) <==> !StartsWithParen(b) || Whole(b)
  {
    WalkReadsProduct(g, a, b, gap, rest, end, s, open, start, middle);
    ProductMeantExactly(g, a, b, gap, s, open, start, middle);
  }

  lemma ProductMeantExactly(g: Shader, a: Expr, b: Expr, gap: seq<Token>, s: State, open: State, start: State,
                            middle: State)
    requires Regular(g, b, true)
    requires open == s.Say("(") && start == open.Say("(") && middle == Emit(g, a, start).Say(") * (")
    ensures EmitLast(g, b, middle, "))").out == s.out + Print(Translate(g, Product(a, b, gap)))
      <==> !StartsWithParen(b) || Whole(b)
  {
    LastMeantExactly(g, b, middle);
    ProductMeant(g, a, b, gap, s, open, start, middle);
  }

  lemma ProductMeant(g: Shader, a: Expr, b: Expr, gap: seq<Token>, s: State, open: State, start: State, middle: State)
    requires open == s.Say("(") && start == open.Say("(") && middle == Emit(g, a, start).Say(") * (")
    ensures Emit(g, b, middle).Say("))").out == s.out + Print(Translate(g, Product(a, b, gap)))
  {
    EmitPrints(g, Product(a, b, gap), s);
    assert Emit(g, Product(a, b, gap), s) == Emit(g, b, middle).Say("))");
  }

  /** The same for the third argument of `mad`; its second may be anything. */
  lemma MulAddTextExact(g: Shader, a: Expr, b: Expr, c: Expr, gap: seq<Token>, rest: seq<Token>, end: string, s: State,
                        open: State, start: State, middle: State, last: State, written: State)
    requires Fits(g) && Regular(g, a, false) && Regular(g, b, false) && Regular(g, c, true) && Spaces(gap)
    requires IsEnd(end) && end != ")"
    requires open == s.Say("(") && start == open.Say("(") && middle == Emit(g, a, start).Say(") * (")
    requires last == Emit(g, b, middle).Say(") + (") && written == EmitLast(g, c, last, "))")
    ensures
      var tb := Tokens(b, [COMMA] + (gap + Tokens(c, [CLOSE] + rest)));
      Loop(g, [NameToken("mad")] + ([OPEN] + Tokens(a, [COMMA] + (gap + tb))), end, s) == Loop(g, rest, end, written)
    ensures written.out == s.out + Print(Translate(g, MulAdd(a, b, c, gap))) <==> !StartsWithParen(c) || Whole(c)
  {
    WalkReadsMulAdd(g, MulAdd(a, b, c, gap), a, b, c, gap, rest, end, s, open, start, middle, last);
    MulAddMeantExactly(g, a, b, c, gap, s, open, start, middle, last);
  }

  lemma MulAddMeantExactly(g: Shader, a: Expr, b: Expr, c: Expr, gap: seq<Token>, s: State, open: State, start: State,
                           middle: State, last: State)
    requires Regular(g, c, true)
    requires open == s.Say("(") && start == open.Say("(") && middle == Emit(g, a, start).Say(") * (")
    requires last == Emit(g, b, middle).Say(") + (")
    ensures EmitLast(g, c, last, "))").out == s.out + Print(Translate(g, MulAdd(a, b, c, gap)))
      <==> !StartsWithParen(c) || Whole(c)
  {
    LastMeantExactly(g, c, last);
    MulAddMeant(g, a, b, c, gap, s, open, start, middle, last);
  }

  lemma MulAddMeant(g: Shader, a: Expr, b: Expr, c: Expr, gap: seq<Token>, s: State, open: State, start: State,
                    middle: State, last: State)
    requires open == s.Say("(") && start == open.Say("(") && middle == Emit(g, a, start).Say(") * (")
    requires last == Emit(g, b, middle).Say(") + (")
    ensures Emit(g, c, last).Say("))").out == s.out + Print(Translate(g, MulAdd(a, b, c, gap)))
  {
    assert Emit(g, MulAdd(a, b, c, gap), s) == Emit(g, c, last).Say("))");
    assert Emit(g, MulAdd(a, b, c, gap), s).out == s.out + Print(Translate(g, MulAdd(a, b, c, gap))) by {
      EmitPrints(g, MulAdd(a, b, c, gap), s);
    }
  }

  lemma ExampleParts()
    ensures var g := Shader(map[], map[], [], []);
      var b := Binary("+", Paren(Ident("b")), Ident("c"), []);
      Regular(g, Ident("a"), false) && Regular(g, b, true) && StartsWithParen(b) && !Whole(b) && Fits(g)
  {
  }

  lemma ExampleWalk(s: State, middle: State)
    requires s == State("", 0, map[])
    requires middle == s.Say("(").Say("(").Say("a").Say(") * (")
    ensures var g := Shader(map[], map[], [], []);
      EmitLast(g, Binary("+", Paren(Ident("b")), Ident("c"), []), middle, "))")
      == middle.Say("(").Say("b").Say("))").Say("+").Say("").Say("c").Say(")")
  {
    assert Text([]) == "";
  }

  lemma ExampleText()
    ensures ((((((((((("" + "(") + "(") + "a") + ") * (") + "(") + "b") + "))") + "+") + "") + "c") + ")") + ""
         == "((a) * ((b))+c)"
  {
  }

  /** In `mul(a,(b)+c)` the sum is torn apart. */
  lemma GroupArgumentMisplaced()
    ensures var g := Shader(map[], map[], [], []);
      var e := Product(Ident("a"), Binary("+", Paren(Ident("b")), Ident("c"), []), []);
      Loop(g, Tokens(e, []), "}", State("", 0, map[])).state.out == "((a) * ((b))+c)"
  {
    var g := Shader(map[], map[], [], []);
    var b := Binary("+", Paren(Ident("b")), Ident("c"), []);
    var s := State("", 0, map[]);
    var middle := Emit(g, Ident("a"), s.Say("(").Say("(")).Say(") * (");
    ExampleParts();
    ExampleWalk(s, middle);
    WalkReadsProduct(g, Ident("a"), b, [], [], "}", s, s.Say("("), s.Say("(").Say("("), middle);
    ExampleText();
  }

  // ----- sincos -----

  /** The walk over `sincos`, given the walks over its arguments. */
  lemma SincosCode(g: Shader, a: seq<Token>, comma: seq<Token>, rest: seq<Token>, end: string, s: State, after: State,
                   done: State)
    requires Fits(g) && IsEnd(end)
    requires Contents(g, [OPEN] + a, ",", SincosStart(s)) == Walk(after, comma, true) && |comma| <= |a| + 1
    requires SincosTargets(g, [NameToken("sincos")] + ([OPEN] + a), comma, SincosVar(s.counter), after.Say("); "))
          == Walk(done, [CLOSE] + rest, true)
    ensures Loop(g, [NameToken("sincos")] + ([OPEN] + a), end, s) == Loop(g, rest, end, done)
  {
    NextIs(NameToken("sincos"), OPEN, a);
    LoopSpecial(g, "sincos", [OPEN] + a, rest, end, s, done);
  }

  lemma TargetsCode(g: Shader, ts: seq<Token>, comma: seq<Token>, b: seq<Token>, behindB: seq<Token>, c: seq<Token>,
                    behindC: seq<Token>, name: string, middle: State, afterB: State, next: State, afterC: State)
    requires |comma| < |ts| && NextToken(comma) == b != []
    requires Contents(g, b, ",", middle) == Walk(afterB, behindB, true) && NextToken(behindB) == c != []
    requires next == afterB.Say(" = sin(").Say(name).Say("); ")
    requires Contents(g, c, ")", next) == Walk(afterC, behindC, true)
    ensures SincosTargets(g, ts, comma, name, middle)
         == Walk(afterC.Say(" = cos(").Say(name).Say(")"), behindC, true)
  {
  }

  lemma ReadsTargets(g: Shader, ts: seq<Token>, sn: Expr, cs: Expr, gap: seq<Token>, rest: seq<Token>, name: string,
                     middle: State, next: State, after: State, left: seq<Token>)
    requires Fits(g) && Regular(g, sn, false) && Regular(g, cs, true) && Spaces(gap)
    requires next == Emit(g, sn, middle).Say(" = sin(").Say(name).Say("); ")
    requires (after, left) == ArgumentWalk(g, cs, rest, next)
    requires |[COMMA] + (gap + Tokens(sn, [COMMA] + (gap + Tokens(cs, [CLOSE] + rest))))| < |ts|
    ensures
      var comma := [COMMA] + (gap + Tokens(sn, [COMMA] + (gap + Tokens(cs, [CLOSE] + rest))));
      SincosTargets(g, ts, comma, name, middle)
      == Walk(after.Say(" = cos(").Say(name).Say(")"), [CLOSE] + left, true)
  {
    var tc := Tokens(cs, [CLOSE] + rest);
    var tb := Tokens(sn, [COMMA] + (gap + tc));
    MiddleArgumentRead(g, sn, gap, gap + tc, middle);
    LastRead(g, cs, gap, rest, next);
    TargetsCode(g, ts, [COMMA] + (gap + tb), tb, [COMMA] + (gap + tc), tc, [CLOSE] + left, name, middle,
                Emit(g, sn, middle), next, after);
  }

  lemma ReadsSincos(g: Shader, x: Expr, comma: seq<Token>, rest: seq<Token>, end: string, s: State, done: State)
    requires Fits(g) && Regular(g, x, false) && IsEnd(end)
    requires
      var a := Tokens(x, [COMMA] + comma);
      SincosTargets(g, [NameToken("sincos")] + ([OPEN] + a), [COMMA] + comma, SincosVar(s.counter),
                    Emit(g, x, SincosStart(s).Say("(")).Say("); "))
      == Walk(done, [CLOSE] + rest, true)
    ensures Loop(g, [NameToken("sincos")] + ([OPEN] + Tokens(x, [COMMA] + comma)), end, s) == Loop(g, rest, end, done)
  {
    FirstArgumentRead(g, x, COMMA, comma, SincosStart(s));
    SincosCode(g, Tokens(x, [COMMA] + comma), [COMMA] + comma, rest, end, s, Emit(g, x, SincosStart(s).Say("(")), done);
  }

  lemma FirstArgumentRead(g: Shader, e: Expr, t: Token, rest: seq<Token>, s: State)
    requires Fits(g) && IsEnd(t.text) && Regular(g, e, t.text == ")")
    ensures Contents(g, [OPEN] + Tokens(e, [t] + rest), t.text, s)
         == Walk(Emit(g, e, s.Say("(")), [t] + rest, true)
  {
    WalkReadsExpr(g, e, [t] + rest, t.text, s.Say("("));
    FirstArgument(g, Tokens(e, [t] + rest), t, rest, s, Emit(g, e, s.Say("(")));
  }

  lemma LastRead(g: Shader, e: Expr, gap: seq<Token>, rest: seq<Token>, s: State)
    requires Fits(g) && Regular(g, e, true) && Spaces(gap)
    ensures var ts := Tokens(e, [CLOSE] + rest);
      var (after, left) := ArgumentWalk(g, e, rest, s);
      && NextToken([COMMA] + (gap + ts)) == ts != []
      && Contents(g, ts, ")", s) == Walk(after, [CLOSE] + left, true)
  {
    RegularAnywhere(g, e);
    NextArgument(g, COMMA, gap, e, [CLOSE] + rest);
    WalkReadsLast(g, e, rest, "}", s, ")");
  }

  lemma MiddleArgumentRead(g: Shader, e: Expr, gap: seq<Token>, rest: seq<Token>, s: State)
    requires Fits(g) && Regular(g, e, false) && Spaces(gap)
    ensures NextToken([COMMA] + (gap + Tokens(e, [COMMA] + rest))) == Tokens(e, [COMMA] + rest)
    ensures Contents(g, Tokens(e, [COMMA] + rest), ",", s) == Walk(Emit(g, e, s), [COMMA] + rest, true)
    ensures Tokens(e, [COMMA] + rest) != []
  {
    NextArgument(g, COMMA, gap, e, [COMMA] + rest);
    WalkReadsMiddle(g, e, [COMMA] + rest, s);
    WalkReadsExpr(g, e, [COMMA] + rest, ",", s);
    LoopEnds(g, rest, COMMA, Emit(g, e, s));
  }

  /** What `sincos` adds to the text, with `v` for the helper variable. */
  ghost function SincosText(g: Shader, x: Expr, sn: Expr, cs: Expr, out: string, v: string): string {
    out + "float " + v + " = " + "(" + Print(Translate(g, x)) + "); "
    + Print(Translate(g, sn)) + " = sin(" + v + "); " + Print(Translate(g, cs)) + " = cos(" + v + ")"
  }

  function CosText(v: string): string { " = cos(" + v + ")" }

  lemma SaidAtOnce(s: State, v: string)
    ensures s.Say(" = cos(").Say(v).Say(")") == s.Say(CosText(v))
  {
    assert ((s.out + " = cos(") + v) + ")" == s.out + ((" = cos(" + v) + ")");
  }

  lemma SincosEmitted(g: Shader, x: Expr, sn: Expr, cs: Expr, s: State, v: string, start: State, middle: State,
                      next: State)
    requires start == s.(counter := s.counter + 1).Say("float ").Say(v).Say(" = ")
    requires middle == Emit(g, x, start.Say("(")).Say("); ")
    requires next == Emit(g, sn, middle).Say(" = sin(").Say(v).Say("); ")
    ensures Emit(g, cs, next).Say(" = cos(").Say(v).Say(")") ==
      State(SincosText(g, x, sn, cs, s.out, v), s.counter + 1, Bound(g, cs, Bound(g, sn, Bound(g, x, s.samplerIds))))
  {
    EmitPrints(g, x, start.Say("("));
    EmitPrints(g, sn, middle);
    EmitPrints(g, cs, next);
  }

  lemma SincosMeant(g: Shader, x: Expr, sn: Expr, cs: Expr, s: State, v: string, middle: State, next: State)
    requires v == SincosVar(s.counter) && middle == Emit(g, x, SincosStart(s).Say("(")).Say("); ")
    requires next == Emit(g, sn, middle).Say(" = sin(").Say(v).Say("); ")
    ensures Emit(g, cs, next).Say(CosText(v)) ==
      State(SincosText(g, x, sn, cs, s.out, v), s.counter + 1, Bound(g, cs, Bound(g, sn, Bound(g, x, s.samplerIds))))
  {
    SaidAtOnce(Emit(g, cs, next), v);
    SincosEmitted(g, x, sn, cs, s, v, SincosStart(s), middle, next);
  }

  /** The walk over `sincos(x, s, c)`; a last argument that starts with a parenthesis is left early. */
  lemma SincosWalk(g: Shader, x: Expr, sn: Expr, cs: Expr, gap: seq<Token>, rest: seq<Token>, end: string, s: State,
                   v: string, middle: State, next: State)
    requires Fits(g) && Regular(g, x, false) && Regular(g, sn, false) && Regular(g, cs, true) && Spaces(gap)
    requires IsEnd(end) && (end == ")" ==> !StartsWithParen(cs)) && v == SincosVar(s.counter)
    requires middle == Emit(g, x, SincosStart(s).Say("(")).Say("); ")
    requires next == Emit(g, sn, middle).Say(" = sin(").Say(v).Say("); ")
    ensures var ts := Tokens(x, [COMMA] + (gap + Tokens(sn, [COMMA] + (gap + Tokens(cs, [CLOSE] + rest)))));
      Loop(g, [NameToken("sincos")] + ([OPEN] + ts), end, s) == Loop(g, rest, end, EmitLast(g, cs, next, CosText(v)))
  {
    var (after, left) := ArgumentWalk(g, cs, rest, next);
    var comma := gap + Tokens(sn, [COMMA] + (gap + Tokens(cs, [CLOSE] + rest)));
    var ts := [NameToken("sincos")] + ([OPEN] + Tokens(x, [COMMA] + comma));
    ReadsTargets(g, ts, sn, cs, gap, rest, v, middle, next, after, left);
    SaidAtOnce(after, v);
    ReadsSincos(g, x, comma, left, end, s, after.Say(CosText(v)));
    WalkReadsLast(g, cs, rest, end, next, CosText(v));
  }

  lemma CosMisplaced(out: string, tail: string, v: string)
    ensures ((out + CosText(v)) + tail) + ")" != ((out + ")") + tail) + CosText(v)
  {
    var a, b := ((out + CosText(v)) + tail) + ")", ((out + ")") + tail) + CosText(v);
    assert a[|out|] == ' ' && b[|out|] == ')';
  }

  /** The second target is what is meant if and only if it does not start with a parenthesis. */
  lemma CosMeantExactly(g: Shader, cs: Expr, next: State, v: string)
    requires Regular(g, cs, true)
    ensures EmitLast(g, cs, next, CosText(v)).out == Emit(g, cs, next).Say(CosText(v)).out <==> !StartsWithParen(cs)
    ensures !StartsWithParen(cs) ==> EmitLast(g, cs, next, CosText(v)) == Emit(g, cs, next).Say(CosText(v))
  {
    if StartsWithParen(cs) {
      var after := Emit(g, Inner(cs), next.Say("("));
      EmitInParts(g, cs, true, next);
      BehindPrints(g, cs, true, after.Say(")"));
      BehindPrints(g, cs, true, after.Say(CosText(v)));
      CosMisplaced(after.out, TailText(g, cs), v);
    }
  }

  /** `sincos(x, s, c)` becomes three statements, through a helper variable that no other call gets, if and only if `c`
      does not start with a parenthesis. */
  lemma SincosWrites(g: Shader, x: Expr, sn: Expr, cs: Expr, gap: seq<Token>, rest: seq<Token>, end: string, s: State,
                     v: string, middle: State, next: State, meant: State)
    requires Fits(g) && Regular(g, x, false) && Regular(g, sn, false) && Regular(g, cs, true) && Spaces(gap)
    requires IsEnd(end) && (end == ")" ==> !StartsWithParen(cs)) && v == SincosVar(s.counter)
    requires middle == Emit(g, x, SincosStart(s).Say("(")).Say("); ")
    requires next == Emit(g, sn, middle).Say(" = sin(").Say(v).Say("); ")
    requires meant == State(SincosText(g, x, sn, cs, s.out, v), s.counter + 1,
                            Bound(g, cs, Bound(g, sn, Bound(g, x, s.samplerIds))))
    ensures var ts := Tokens(x, [COMMA] + (gap + Tokens(sn, [COMMA] + (gap + Tokens(cs, [CLOSE] + rest)))));
      Loop(g, [NameToken("sincos")] + ([OPEN] + ts), end, s) == Loop(g, rest, end, EmitLast(g, cs, next, CosText(v)))
    ensures EmitLast(g, cs, next, CosText(v)).out == meant.out <==> !StartsWithParen(cs)
    ensures !StartsWithParen(cs) ==> EmitLast(g, cs, next, CosText(v)) == meant
  {
    assert meant == Emit(g, cs, next).Say(CosText(v)) by {
      SincosMeant(g, x, sn, cs, s, v, middle, next);
    }
    SincosWalk(g, x, sn, cs, gap, rest, end, s, v, middle, next);
    CosMeantExactly(g, cs, next, v);
  }

  /** Different counters give different variables. */
  lemma {:induction false} DecimalInjective(m: nat, n: nat)
    requires Decimal(m) == Decimal(n)
    ensures m == n
    decreases m
  {
    var a, b := Decimal(m), Decimal(n);
    assert a[|a| - 1] == ('0' as int + m % 10) as char;
    assert b[|b| - 1] == ('0' as int + n % 10) as char;
    assert (m >= 10 ==> |a| > 1) && (n >= 10 ==> |b| > 1);
    if m < 10 {
    } else {
      assert a[..|a| - 1] == Decimal(m / 10) && b[..|b| - 1] == Decimal(n / 10);
      DecimalInjective(m / 10, n / 10);
    }
  }

  lemma TablesFit(params: seq<Param>, samplers: seq<string>)
    ensures Fits(Shader(TYPES, RENAMES, params, samplers))
  {
  }
}
