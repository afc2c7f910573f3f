/**
 The operators of HLSL and GLSL on numbers, vectors and matrices: HLSL's `*` goes component by component and leaves the
 linear products to `mul`, GLSL's `*` is the linear product as soon as a matrix takes part. The translation of `mul` and
 `mad` to operators (libobs-opengl/gl-shaderparser.c) means the same exactly where these differences do not show.
 */
module ShaderValues {
  import opened Bytes
  import opened ShaderTranslator
  import opened ShaderMeaning

  /** A matrix is given by its rows; GLSL's samplers are a texture together with its sampler. Expressions that a
      compiler rejects are undefined. */
  datatype Value =
    | Scalar(x: real)
    | Vector(x: real, y: real)
    | Matrix(xx: real, xy: real, yx: real, yy: real)
    | Sampler(texture: string, id: nat)
    | Undefined

  /** An operation component by component; a number is taken for each component. */
  function Each(f: (real, real) -> real, v: Value, w: Value): Value {
    match (v, w)
    case (Scalar(a), Scalar(b)) => Scalar(f(a, b))
    case (Scalar(a), Vector(x, y)) => Vector(f(a, x), f(a, y))
    case (Vector(x, y), Scalar(b)) => Vector(f(x, b), f(y, b))
    case (Vector(a, b), Vector(x, y)) => Vector(f(a, x), f(b, y))
    case (Scalar(a), Matrix(p, q, r, s)) => Matrix(f(a, p), f(a, q), f(a, r), f(a, s))
    case (Matrix(p, q, r, s), Scalar(b)) => Matrix(f(p, b), f(q, b), f(r, b), f(s, b))
    case (Matrix(a, b, c, d), Matrix(p, q, r, s)) => Matrix(f(a, p), f(b, q), f(c, r), f(d, s))
    case _ => Undefined
  }

  const Times: (real, real) -> real := (a, b) => a * b
  const Plus: (real, real) -> real := (a, b) => a + b
  const Minus: (real, real) -> real := (a, b) => a - b

  /** HLSL's `mul`: a vector is a row on the left, a column on the right. */
  function Mul(v: Value, w: Value): Value {
    match (v, w)
    case (Vector(a, b), Vector(x, y)) => Scalar(a * x + b * y)
    case (Vector(a, b), Matrix(p, q, r, s)) => Vector(a * p + b * r, a * q + b * s)
    case (Matrix(p, q, r, s), Vector(x, y)) => Vector(p * x + q * y, r * x + s * y)
    case (Matrix(a, b, c, d), Matrix(p, q, r, s)) =>
      Matrix(a * p + b * r, a * q + b * s, c * p + d * r, c * q + d * s)
    case _ => Each(Times, v, w)
  }

  function HlslTimes(v: Value, w: Value): Value { Each(Times, v, w) }

  function GlslTimes(v: Value, w: Value): Value {
    if v.Matrix? || w.Matrix? then Mul(v, w) else Each(Times, v, w)
  }

  /** GLSL's `*` is HLSL's `mul` unless two vectors are multiplied: `mul` is their dot product. */
  lemma TimesIsMul(v: Value, w: Value)
    ensures GlslTimes(v, w) == Mul(v, w) <==> !(v.Vector? && w.Vector?)
  {
  }

  /** GLSL's `*` is HLSL's `*` unless a vector meets a matrix, or two matrices whose products differ. */
  lemma TimesIsTimes(v: Value, w: Value)
    ensures GlslTimes(v, w) == HlslTimes(v, w) <==>
      !(v.Vector? && w.Matrix?) && !(v.Matrix? && w.Vector?) &&
      (v.Matrix? && w.Matrix? ==>
        v.xy * w.yx == 0.0 && v.yx * w.xy == 0.0 &&
        v.xx * w.xy + v.xy * w.yy == v.xy * w.xy && v.yx * w.xx + v.yy * w.yx == v.yx * w.yx)
  {
  }

  /** They do differ. */
  lemma MatricesDiffer()
    ensures var ones := Matrix(1.0, 1.0, 1.0, 1.0);
      HlslTimes(ones, ones) == ones && GlslTimes(ones, ones) == Mul(ones, ones) == Matrix(2.0, 2.0, 2.0, 2.0)
  {
  }

  function Clamp(x: real, low: real, high: real): real { if x < low then low else if x > high then high else x }

  function Saturate(v: Value): Value {
    match v
    case Scalar(x) => Scalar(Clamp(x, 0.0, 1.0))
    case Vector(x, y) => Vector(Clamp(x, 0.0, 1.0), Clamp(y, 0.0, 1.0))
    case _ => Undefined
  }

  function GlslClamp(v: Value, low: Value, high: Value): Value {
    match (v, low, high)
    case (Scalar(x), Scalar(a), Scalar(b)) => Scalar(Clamp(x, a, b))
    case (Vector(x, y), Scalar(a), Scalar(b)) => Vector(Clamp(x, a, b), Clamp(y, a, b))
    case _ => Undefined
  }

  function Negated(op: string, v: Value): Value {
    if op == "-" then Each(Minus, Scalar(0.0), v) else Undefined
  }

  function Component(name: string, v: Value): Value {
    if v.Vector? && name == "x" then Scalar(v.x) else if v.Vector? && name == "y" then Scalar(v.y) else Undefined
  }

  /** Indexing a matrix gives a row in HLSL and a column in GLSL. */
  function HlslAt(v: Value, at: Value): Value {
    match (v, at)
    case (Vector(x, y), Scalar(i)) => Scalar(if i == 0.0 then x else y)
    case (Matrix(p, q, r, s), Scalar(i)) => if i == 0.0 then Vector(p, q) else Vector(r, s)
    case _ => Undefined
  }

  function GlslAt(v: Value, at: Value): Value {
    match (v, at)
    case (Vector(x, y), Scalar(i)) => Scalar(if i == 0.0 then x else y)
    case (Matrix(p, q, r, s), Scalar(i)) => if i == 0.0 then Vector(p, r) else Vector(q, s)
    case _ => Undefined
  }

  /** The two agree exactly on vectors and symmetric matrices. */
  lemma IndexAgrees(v: Value, at: Value)
    requires at.Scalar?
    ensures GlslAt(v, at) == HlslAt(v, at) <==> (v.Matrix? ==> v.xy == v.yx)
  {
  }

  function HlslOp(divide: (real, real) -> real, op: string, v: Value, w: Value): Value {
    if op == "*" then HlslTimes(v, w)
    else if op == "/" then Each(divide, v, w)
    else if op == "+" then Each(Plus, v, w)
    else if op == "-" then Each(Minus, v, w)
    else Undefined
  }

  function GlslOp(divide: (real, real) -> real, op: string, v: Value, w: Value): Value {
    if op == "*" then GlslTimes(v, w) else HlslOp(divide, op, v, w)
  }

  /** The constructors of matrices, under their names in either language. */
  const HLSL_MATRICES := ["float3x3", "float3x4", "float4x4"]
  const GLSL_MATRICES := ["mat3x3", "mat3x4", "mat4x4"]

  /** HLSL fills a matrix row by row. */
  function HlslMatrix(args: seq<Value>): Value {
    if |args| == 2 && args[0].Vector? && args[1].Vector? then Matrix(args[0].x, args[0].y, args[1].x, args[1].y)
    else if |args| == 4 && args[0].Scalar? && args[1].Scalar? && args[2].Scalar? && args[3].Scalar?
    then Matrix(args[0].x, args[1].x, args[2].x, args[3].x)
    else Undefined
  }

  /** GLSL fills it column by column. */
  function GlslMatrix(args: seq<Value>): Value {
    if |args| == 2 && args[0].Vector? && args[1].Vector? then Matrix(args[0].x, args[1].x, args[0].y, args[1].y)
    else if |args| == 4 && args[0].Scalar? && args[1].Scalar? && args[2].Scalar? && args[3].Scalar?
    then Matrix(args[0].x, args[2].x, args[1].x, args[3].x)
    else Undefined
  }

  function Transposed(v: Value): Value { if v.Matrix? then Matrix(v.xx, v.yx, v.xy, v.yy) else v }

  /** So the one is the transpose of the other, and they agree exactly on symmetric matrices. */
  lemma MatrixAgrees(args: seq<Value>)
    ensures GlslMatrix(args) == Transposed(HlslMatrix(args))
    ensures GlslMatrix(args) == HlslMatrix(args) <==>
      (HlslMatrix(args).Matrix? ==> HlslMatrix(args).xy == HlslMatrix(args).yx)
  {
  }

  /** A product with the one has the operands' order of the product with the other. */
  lemma TransposedMul(v: Value, m: Value)
    requires v.Vector? && m.Matrix?
    ensures Mul(v, Transposed(m)) == Mul(m, v) && Mul(Transposed(m), v) == Mul(v, m)
  {
  }

  /** `mul(float2(1, 0), M)` for the matrix with the rows 1, 2 and 3, 4 is its first row, translated its first column.
      */
  lemma RowsBecomeColumns(rows: seq<Value>)
    requires rows == [Vector(1.0, 2.0), Vector(3.0, 4.0)]
    ensures Mul(Vector(1.0, 0.0), HlslMatrix(rows)) == Vector(1.0, 2.0)
    ensures Mul(Vector(1.0, 0.0), GlslMatrix(rows)) == Vector(1.0, 3.0)
  {
  }

  /** How the level of detail is found when a texture is read. */
  datatype Detail = Auto | Bias(amount: Value) | Gradients(dx: Value, dy: Value) | AtLevel(level: Value)

  /** Variables, literals, functions and textures: what a shader is run with. The two libraries have each language's
      functions under its own names. A texture is read with a sampler, at a coordinate, to some detail and perhaps
      with an offset, or directly, which GLSL leaves to a helper for textures of two and one for textures of three
      dimensions. */
  datatype World = World(
    ident: string -> Value, number: string -> Value, divide: (real, real) -> real,
    hlsl: (string, seq<Value>) -> Value, library: (string, seq<Value>) -> Value,
    texel: (string, nat, Value, Detail, Option<Value>) -> Value, fetch: (string, Value) -> Value,
    load2d: (string, Value) -> Value, load3d: (string, Value) -> Value)

  /** What HLSL's methods want behind the sampler: the coordinate, then what the detail takes. */
  function Needed(filter: Filter): nat {
    match filter
    case Plain => 1
    case Biased => 2
    case Graded => 3
    case Leveled => 2
  }

  function DetailOf(filter: Filter, args: seq<Value>): Detail
    requires |args| >= Needed(filter)
  {
    match filter
    case Plain => Auto
    case Biased => Bias(args[1])
    case Graded => Gradients(args[1], args[2])
    case Leveled => AtLevel(args[1])
  }

  /** HLSL's `Sample`, `SampleBias`, `SampleGrad` and `SampleLevel`; each may have an offset behind its arguments. */
  function HlslSample(world: World, filter: Filter, t: string, id: nat, args: seq<Value>): Value {
    var n := Needed(filter);
    if |args| == n then world.texel(t, id, args[0], DetailOf(filter, args), None)
    else if |args| == n + 1 then world.texel(t, id, args[0], DetailOf(filter, args), Some(args[n]))
    else Undefined
  }

  /** GLSL's `texture` takes a bias as its third argument, `textureGrad` two gradients and `textureLod` a level. */
  function GlslTexture(world: World, f: string, args: seq<Value>): Value {
    if args == [] || !args[0].Sampler? then Undefined
    else
      var (t, id, n) := (args[0].texture, args[0].id, |args|);
      if f == "texture" && n == 2 then world.texel(t, id, args[1], Auto, None)
      else if f == "texture" && n == 3 then world.texel(t, id, args[1], Bias(args[2]), None)
      else if f == "textureGrad" && n == 4 then world.texel(t, id, args[1], Gradients(args[2], args[3]), None)
      else if f == "textureLod" && n == 3 then world.texel(t, id, args[1], AtLevel(args[2]), None)
      else if f == "obs_load_2d" && n == 2 then world.load2d(t, args[1])
      else if f == "obs_load_3d" && n == 2 then world.load3d(t, args[1])
      else Undefined
  }

  const TEXTURE_FUNCTIONS := ["texture", "textureGrad", "textureLod", "obs_load_2d", "obs_load_3d"]

  /** A method without an offset means what its GLSL function means, whatever the textures hold. */
  lemma MethodsAgree(g: Shader, world: World, filter: Filter, smp: string, gap: seq<Token>, t: string, id: nat,
                     args: seq<Value>)
    requires |args| == Needed(filter)
    ensures GlslTexture(world, GlslFunction(g, t, Filtered(filter, smp, gap)), [Sampler(t, id)] + args)
         == HlslSample(world, filter, t, id, args)
  {
  }

  /** An offset is lost: that of `Sample` is taken for a bias, any other is one argument too many. */
  lemma OffsetLost(g: Shader, world: World, filter: Filter, smp: string, gap: seq<Token>, t: string, id: nat,
                   args: seq<Value>)
    requires |args| == Needed(filter) + 1
    ensures var offset := args[Needed(filter)];
      && HlslSample(world, filter, t, id, args)
           == world.texel(t, id, args[0], DetailOf(filter, args), Some(offset))
      && GlslTexture(world, GlslFunction(g, t, Filtered(filter, smp, gap)), [Sampler(t, id)] + args)
           == if filter.Plain? then world.texel(t, id, args[0], Bias(offset), None) else Undefined
  {
  }

  function GlslCall(world: World, f: string, args: seq<Value>): Value {
    if f == "mod" && |args| == 2 && args[0].Scalar? && args[1].Scalar? && args[1].x != 0.0
    then Scalar(Mod(args[0].x, args[1].x))
    else if f == "clamp" && |args| == 3 then GlslClamp(args[0], args[1], args[2])
    else if f in TEXTURE_FUNCTIONS then GlslTexture(world, f, args)
    else if f in GLSL_MATRICES then GlslMatrix(args)
    else world.library(f, args)
  }

  function HlslCall(world: World, f: string, args: seq<Value>): Value {
    if f == "fmod" && |args| == 2 && args[0].Scalar? && args[1].Scalar? && args[1].x != 0.0
    then Scalar(Fmod(args[0].x, args[1].x))
    else if f in HLSL_MATRICES then HlslMatrix(args)
    else world.hlsl(f, args)
  }

  function HlslLoad(world: World, t: string, args: seq<Value>): Value {
    if |args| == 1 then world.fetch(t, args[0]) else Undefined
  }

  ghost function Hlsl(world: World): Meaning<Value> {
    Meaning(world.ident, world.number, (op, v, w) => HlslOp(world.divide, op, v, w), Negated, Component, HlslAt,
            (f, args) => HlslCall(world, f, args), Mul, (u, v, w) => Each(Plus, HlslTimes(u, v), w), Saturate,
            (filter, t, id, args) => HlslSample(world, filter, t, id, args), (t, args) => HlslLoad(world, t, args))
  }

  /** The translation has none of HLSL's own expressions left, so it does not matter what the last five are. */
  ghost function Glsl(world: World): Meaning<Value> {
    Meaning(world.ident, world.number, (op, v, w) => GlslOp(world.divide, op, v, w), Negated, Component, GlslAt,
            (f, args) => GlslCall(world, f, args), Mul, (u, v, w) => Each(Plus, GlslTimes(u, v), w), Saturate,
            (filter, t, id, args) => HlslSample(world, filter, t, id, args), (t, args) => HlslLoad(world, t, args))
  }

  // ---------- Expressions on which the languages agree ----------

  datatype Shape = Number1 | Number2 | Number4

  predicate HasShape(v: Value, k: Shape) {
    match k
    case Number1 => v.Scalar?
    case Number2 => v.Vector?
    case Number4 => v.Matrix?
  }

  /** What is known of variables and of functions: which of HLSL's functions GLSL has under the name they are given
      there, and what they yield. */
  datatype Shapes = Shapes(ident: string -> Shape, shared: string -> bool, result: string -> Shape)

  /** The world is made up like that; textures have their samplers, give vectors, and are read by GLSL's helpers as HLSL
      reads them directly. */
  ghost predicate Shaped(g: Shader, world: World, k: Shapes, ids: map<string, nat>) {
    && (forall n :: HasKind(g, world.ident(n), n, k, ids))
    && (forall t :: world.number(t).Scalar?)
    && world.number("0.0") == Scalar(0.0) && world.number("1.0") == Scalar(1.0)
    && (forall f, args :: k.shared(f) ==>
          world.hlsl(f, args) == world.library(Renamed(g, f), args) && HasShape(world.hlsl(f, args), k.result(f)))
    && (forall t, id, v, d, o :: world.texel(t, id, v, d, o).Vector?)
    && (forall t, v :: IsTexture(g, t) ==> LoadsAlike(g, world, t, v))
  }

  /** A texture's value is its sampler. */
  predicate HasKind(g: Shader, v: Value, n: string, k: Shapes, ids: map<string, nat>) {
    if n in ids || IsTexture(g, n) then v.Sampler? && v.texture == n && (n in ids ==> v.id == ids[n])
    else HasShape(v, k.ident(n))
  }

  predicate LoadsAlike(g: Shader, world: World, t: string, v: Value) {
    && world.fetch(t, v).Vector?
    && world.fetch(t, v) == if ThreeD(g, t) then world.load3d(t, v) else world.load2d(t, v)
  }

  /** Component by component, equal shapes or a number and anything; `*` takes no two matrices. */
  function EachShape(k: Shape, l: Shape, product: bool): Option<Shape> {
    if k == Number1 then Some(l)
    else if l == Number1 then Some(k)
    else if k != l || (product && k == Number4) then None
    else Some(k)
  }

  /** `mul` takes no two vectors. */
  function MulShape(k: Shape, l: Shape): Option<Shape> {
    if k == Number1 then Some(l)
    else if l == Number1 then Some(k)
    else if k == Number2 && l == Number2 then None
    else Some(if k == Number4 && l == Number4 then Number4 else Number2)
  }

  /** The shape of an expression that multiplies no two matrices with `*` and no two vectors with `mul`, indexes no
      matrix, reads textures without offsets, and calls shared functions alone: no `fmod` and no matrix constructor. */
  function ShapeOf(g: Shader, k: Shapes, ids: map<string, nat>, e: Expr): Option<Shape> {
    match e
    case Ident(n) => if n in ids || IsTexture(g, n) then None else Some(k.ident(n))
    case Number(_) => Some(Number1)
    case Spaced(x, _) => ShapeOf(g, k, ids, x)
    case Paren(x) => ShapeOf(g, k, ids, x)
    case Binary(op, a, b, _) => BinaryShape(op, ShapeOf(g, k, ids, a), ShapeOf(g, k, ids, b))
    case Unary(op, x) => if op == "-" then ShapeOf(g, k, ids, x) else None
    case Member(x, n) =>
      if ShapeOf(g, k, ids, x) == Some(Number2) && (n == "x" || n == "y") then Some(Number1) else None
    case Index(x, i) =>
      if ShapeOf(g, k, ids, x) == Some(Number2) && ShapeOf(g, k, ids, i) == Some(Number1) then Some(Number1) else None
    case Call(f, args) =>
      if ShapedArgs(g, k, ids, args) && k.shared(f) && !Distinct(g, f) then Some(k.result(f)) else None
    case Product(a, b, _) => ProductShape(ShapeOf(g, k, ids, a), ShapeOf(g, k, ids, b))
    case MulAdd(a, b, c, _) =>
      BinaryShape("+", BinaryShape("*", ShapeOf(g, k, ids, a), ShapeOf(g, k, ids, b)), ShapeOf(g, k, ids, c))
    case Clamped(x) => if ShapeOf(g, k, ids, x) == Some(Number4) then None else ShapeOf(g, k, ids, x)
    case Sample(t, access, args) =>
      if Readable(g, ids, t, access, Count(args)) && ShapedArgs(g, k, ids, args) then Some(Number2) else None
  }

  /** The texture goes through the sampler it is bound to, with just the arguments needed. */
  predicate Readable(g: Shader, ids: map<string, nat>, t: string, access: Access, count: nat) {
    match access
    case Filtered(filter, smp, _) =>
      t in ids && SamplerIndex(g.samplers, smp) == Some(ids[t]) && count == Needed(filter)
    case Direct => IsTexture(g, t) && count == 1
  }

  function Count(args: Args): nat {
    match args
    case NoArgs => 0
    case LastArg(_) => 1
    case MoreArgs(_, _, rest) => 1 + Count(rest)
  }

  lemma {:induction false} CountIsLength<V>(g: Shader, m: Meaning<V>, args: Args)
    ensures |EvalArgs(g, m, args)| == Count(args)
    decreases args
  {
    match args
    case NoArgs =>
    case LastArg(_) =>
    case MoreArgs(_, _, rest) => CountIsLength(g, m, rest);
  }

  /** A function that one of the languages has a meaning of its own for. */
  predicate Distinct(g: Shader, f: string) {
    || f == "fmod" || f in HLSL_MATRICES || Renamed(g, f) in ["mod", "clamp"]
    || Renamed(g, f) in TEXTURE_FUNCTIONS || Renamed(g, f) in GLSL_MATRICES
  }

  predicate ShapedArgs(g: Shader, k: Shapes, ids: map<string, nat>, args: Args) {
    match args
    case NoArgs => true
    case LastArg(e) => ShapeOf(g, k, ids, e).Some?
    case MoreArgs(e, _, rest) => ShapeOf(g, k, ids, e).Some? && ShapedArgs(g, k, ids, rest)
  }

  function ProductShape(k: Option<Shape>, l: Option<Shape>): Option<Shape> {
    if k.None? || l.None? then None else MulShape(k.value, l.value)
  }

  function BinaryShape(op: string, k: Option<Shape>, l: Option<Shape>): Option<Shape> {
    if k.None? || l.None? || !(op in ["*", "/", "+", "-"]) then None
    else EachShape(k.value, l.value, op == "*")
  }

  lemma BinaryAgrees(divide: (real, real) -> real, op: string, v: Value, w: Value, k: Shape, l: Shape)
    requires HasShape(v, k) && HasShape(w, l) && BinaryShape(op, Some(k), Some(l)).Some?
    ensures GlslOp(divide, op, v, w) == HlslOp(divide, op, v, w)
    ensures HasShape(HlslOp(divide, op, v, w), BinaryShape(op, Some(k), Some(l)).value)
  {
  }

  lemma ProductAgrees(v: Value, w: Value, k: Shape, l: Shape)
    requires HasShape(v, k) && HasShape(w, l) && MulShape(k, l).Some?
    ensures GlslTimes(v, w) == Mul(v, w) && HasShape(Mul(v, w), MulShape(k, l).value)
  {
    TimesIsMul(v, w);
  }

  lemma SumAgrees(divide: (real, real) -> real, x: Value, y: Value, z: Value, k: Shape, l: Shape, n: Shape)
    requires HasShape(x, k) && HasShape(y, l) && HasShape(z, n)
    requires BinaryShape("+", BinaryShape("*", Some(k), Some(l)), Some(n)).Some?
    ensures GlslOp(divide, "+", GlslOp(divide, "*", x, y), z) == Each(Plus, HlslTimes(x, y), z)
    ensures
      HasShape(Each(Plus, HlslTimes(x, y), z), BinaryShape("+", BinaryShape("*", Some(k), Some(l)), Some(n)).value)
  {
    BinaryAgrees(divide, "*", x, y, k, l);
    BinaryAgrees(divide, "+", HlslTimes(x, y), z, BinaryShape("*", Some(k), Some(l)).value, n);
  }

  lemma ClampAgrees(world: World, v: Value)
    requires v.Scalar? || v.Vector?
    requires world.number("0.0") == Scalar(0.0) && world.number("1.0") == Scalar(1.0)
    ensures GlslCall(world, "clamp", [v, world.number("0.0"), world.number("1.0")]) == Saturate(v)
  {
  }

  lemma SharedAgrees(g: Shader, world: World, k: Shapes, ids: map<string, nat>, f: string, args: seq<Value>)
    requires Shaped(g, world, k, ids) && k.shared(f) && !Distinct(g, f)
    ensures GlslCall(world, Renamed(g, f), args) == HlslCall(world, f, args)
    ensures HasShape(HlslCall(world, f, args), k.result(f))
  {
  }

  /** On such an expression the two languages agree, whatever `mul` and the two `*` do elsewhere. */
  lemma {:induction false} ShapedAgrees(g: Shader, world: World, k: Shapes, ids: map<string, nat>, e: Expr)
    requires Shaped(g, world, k, ids) && ShapeOf(g, k, ids, e).Some?
    ensures AgreesOn(g, Hlsl(world), Glsl(world), ids, e) && Faithful(g, e, ids)
    ensures HasShape(Eval(g, Hlsl(world), e), ShapeOf(g, k, ids, e).value)
    decreases e, 1
  {
    var h := Hlsl(world);
    match e
    case Ident(_) =>
    case Number(_) =>
    case Spaced(x, _) => ShapedAgrees(g, world, k, ids, x);
    case Paren(x) => ShapedAgrees(g, world, k, ids, x);
    case Binary(op, a, b, _) =>
      ShapedAgrees(g, world, k, ids, a);
      ShapedAgrees(g, world, k, ids, b);
      BinaryAgrees(world.divide, op, Eval(g, h, a), Eval(g, h, b), ShapeOf(g, k, ids, a).value,
                   ShapeOf(g, k, ids, b).value);
    case Unary(_, x) => ShapedAgrees(g, world, k, ids, x);
    case Member(x, _) => ShapedAgrees(g, world, k, ids, x);
    case Index(x, i) =>
      ShapedAgrees(g, world, k, ids, x);
      ShapedAgrees(g, world, k, ids, i);
    case Product(_, _, _) => ShapedProductAgrees(g, world, k, ids, e);
    case MulAdd(_, _, _, _) => ShapedProductAgrees(g, world, k, ids, e);
    case _ => ShapedCallAgrees(g, world, k, ids, e);
  }

  lemma {:induction false} ShapedCallAgrees(g: Shader, world: World, k: Shapes, ids: map<string, nat>, e: Expr)
    requires Shaped(g, world, k, ids) && ShapeOf(g, k, ids, e).Some?
    requires e.Call? || e.Clamped? || e.Sample?
    ensures AgreesOn(g, Hlsl(world), Glsl(world), ids, e) && Faithful(g, e, ids)
    ensures HasShape(Eval(g, Hlsl(world), e), ShapeOf(g, k, ids, e).value)
    decreases e, 0
  {
    var h := Hlsl(world);
    match e
    case Call(f, args) =>
      ShapedArgsAgree(g, world, k, ids, args);
      SharedAgrees(g, world, k, ids, f, EvalArgs(g, h, args));
    case Clamped(x) =>
      ShapedAgrees(g, world, k, ids, x);
      ClampedAgrees(g, world, ids, x);
    case Sample(t, access, args) =>
      ShapedArgsAgree(g, world, k, ids, args);
      CountIsLength(g, h, args);
      SampleAgrees(g, world, k, ids, t, access, EvalArgs(g, h, args));
  }

  lemma ClampedAgrees(g: Shader, world: World, ids: map<string, nat>, x: Expr)
    requires AgreesOn(g, Hlsl(world), Glsl(world), ids, x)
    requires Eval(g, Hlsl(world), x).Scalar? || Eval(g, Hlsl(world), x).Vector?
    requires world.number("0.0") == Scalar(0.0) && world.number("1.0") == Scalar(1.0)
    ensures AgreesOn(g, Hlsl(world), Glsl(world), ids, Clamped(x))
  {
    ClampAgrees(world, Eval(g, Hlsl(world), x));
  }

  /** A texture is read alike. */
  lemma SampleAgrees(g: Shader, world: World, k: Shapes, ids: map<string, nat>, t: string, access: Access,
                     args: seq<Value>)
    requires Shaped(g, world, k, ids) && Readable(g, ids, t, access, |args|)
    ensures var read := GlslCall(world, GlslFunction(g, t, access), [world.ident(t)] + args);
      match access
      case Filtered(filter, _, _) => read == HlslSample(world, filter, t, ids[t], args) && read.Vector?
      case Direct => read == HlslLoad(world, t, args) && read.Vector?
  {
    assert HasKind(g, world.ident(t), t, k, ids);
    match access
    case Filtered(filter, smp, gap) =>
      assert world.ident(t) == Sampler(t, ids[t]);
      MethodsAgree(g, world, filter, smp, gap, t, ids[t], args);
    case Direct =>
      assert LoadsAlike(g, world, t, args[0]);
  }

  lemma {:induction false} ShapedProductAgrees(g: Shader, world: World, k: Shapes, ids: map<string, nat>, e: Expr)
    requires Shaped(g, world, k, ids) && ShapeOf(g, k, ids, e).Some?
    requires e.Product? || e.MulAdd?
    ensures AgreesOn(g, Hlsl(world), Glsl(world), ids, e) && Faithful(g, e, ids)
    ensures HasShape(Eval(g, Hlsl(world), e), ShapeOf(g, k, ids, e).value)
    decreases e, 0
  {
    var h := Hlsl(world);
    match e
    case Product(a, b, _) =>
      ShapedAgrees(g, world, k, ids, a);
      ShapedAgrees(g, world, k, ids, b);
      ProductAgrees(Eval(g, h, a), Eval(g, h, b), ShapeOf(g, k, ids, a).value, ShapeOf(g, k, ids, b).value);
    case MulAdd(a, b, c, _) =>
      ShapedAgrees(g, world, k, ids, a);
      ShapedAgrees(g, world, k, ids, b);
      ShapedAgrees(g, world, k, ids, c);
      SumAgrees(world.divide, Eval(g, h, a), Eval(g, h, b), Eval(g, h, c), ShapeOf(g, k, ids, a).value,
                ShapeOf(g, k, ids, b).value, ShapeOf(g, k, ids, c).value);
  }

  lemma {:induction false} ShapedArgsAgree(g: Shader, world: World, k: Shapes, ids: map<string, nat>, args: Args)
    requires Shaped(g, world, k, ids) && ShapedArgs(g, k, ids, args)
    ensures AgreesOnArgs(g, Hlsl(world), Glsl(world), ids, args) && FaithfulArgs(g, args, ids)
    decreases args, 0
  {
    match args
    case NoArgs =>
    case LastArg(e) => ShapedAgrees(g, world, k, ids, e);
    case MoreArgs(e, _, rest) =>
      ShapedAgrees(g, world, k, ids, e);
      ShapedArgsAgree(g, world, k, ids, rest);
  }

  /** Such an expression, translated, evaluates in GLSL to what it is in HLSL. */
  lemma ShapedMeansSame(g: Shader, world: World, k: Shapes, ids: map<string, nat>, e: Expr)
    requires Shaped(g, world, k, ids) && ShapeOf(g, k, ids, e).Some?
    ensures Eval(g, Glsl(world), Translate(g, e)) == Eval(g, Hlsl(world), e)
  {
    ShapedAgrees(g, world, k, ids, e);
    TranslationMeansSame(g, Hlsl(world), Glsl(world), ids, e);
  }

  /** A vector times a matrix by `mul` beside a product by components: `mul(v * w, M) * u`, for all their values. */
  lemma VectorTimesMatrix(g: Shader, world: World, k: Shapes, e: Expr)
    requires Shaped(g, world, k, map[])
    requires k.ident("v") == k.ident("w") == k.ident("u") == Number2 && k.ident("M") == Number4
    requires !IsTexture(g, "v") && !IsTexture(g, "w") && !IsTexture(g, "u") && !IsTexture(g, "M")
    requires e == Binary("*", Product(Binary("*", Ident("v"), Ident("w"), []), Ident("M"), []), Ident("u"), [])
    ensures Eval(g, Glsl(world), Translate(g, e)) == Eval(g, Hlsl(world), e)
         == Each(Times, Mul(Each(Times, world.ident("v"), world.ident("w")), world.ident("M")), world.ident("u"))
  {
    var product := Product(Binary("*", Ident("v"), Ident("w"), []), Ident("M"), []);
    assert ShapeOf(g, k, map[], Binary("*", Ident("v"), Ident("w"), [])) == Some(Number2);
    assert ShapeOf(g, k, map[], product) == Some(Number2);
    ShapedMeansSame(g, world, k, map[], e);
    var h := Hlsl(world);
    assert Eval(g, h, Binary("*", Ident("v"), Ident("w"), [])) == Each(Times, world.ident("v"), world.ident("w"));
    assert Eval(g, h, product) == Mul(Each(Times, world.ident("v"), world.ident("w")), world.ident("M"));
  }

  /** `*` between two variables, translated, means the same exactly where the two products agree. */
  lemma StarMeansSame(g: Shader, world: World, ids: map<string, nat>, v: string, w: string)
    ensures var e := Binary("*", Ident(v), Ident(w), []);
      Eval(g, Glsl(world), Translate(g, e)) == Eval(g, Hlsl(world), e)
      <==> GlslTimes(world.ident(v), world.ident(w)) == HlslTimes(world.ident(v), world.ident(w))
  {
    TranslationMeansSame(g, Hlsl(world), Glsl(world), ids, Binary("*", Ident(v), Ident(w), []));
  }

  /** A texture read with an offset, `t.Sample(smp, uv, o)`: translated, the offset is a bias. */
  lemma OffsetIsBias(g: Shader, world: World, t: string, smp: string, uv: string, o: string, gap: seq<Token>, id: nat)
    requires SamplerIndex(g.samplers, smp) == Some(id) && world.ident(t) == Sampler(t, id)
    ensures var e := Sample(t, Filtered(Plain, smp, gap), MoreArgs(Ident(uv), gap, LastArg(Ident(o))));
      && Eval(g, Hlsl(world), e) == world.texel(t, id, world.ident(uv), Auto, Some(world.ident(o)))
      && Eval(g, Glsl(world), Translate(g, e)) == world.texel(t, id, world.ident(uv), Bias(world.ident(o)), None)
  {
    var access, args := Filtered(Plain, smp, gap), MoreArgs(Ident(uv), gap, LastArg(Ident(o)));
    TwoArguments(g, Hlsl(world), uv, o, gap);
    TwoArguments(g, Glsl(world), uv, o, gap);
    TextureMeans(g, Glsl(world), "texture", t, args);
    OffsetLost(g, world, Plain, smp, gap, t, id, [world.ident(uv), world.ident(o)]);
  }

  lemma TwoArguments<V>(g: Shader, m: Meaning<V>, v: string, w: string, gap: seq<Token>)
    ensures var args := MoreArgs(Ident(v), gap, LastArg(Ident(w)));
      EvalArgs(g, m, args) == [m.ident(v), m.ident(w)] && TranslateArgs(g, args) == args
  {
    assert TranslateArgs(g, LastArg(Ident(w))) == LastArg(Ident(w));
    assert EvalArgs(g, m, LastArg(Ident(w))) == [m.ident(w)];
  }

  /** A call with two variables means the same exactly where the two functions agree on their values. */
  lemma CallMeansSame(g: Shader, world: World, f: string, v: string, w: string)
    ensures var e := Call(f, MoreArgs(Ident(v), [], LastArg(Ident(w))));
      Eval(g, Glsl(world), Translate(g, e)) == Eval(g, Hlsl(world), e)
      <==> GlslCall(world, Renamed(g, f), [world.ident(v), world.ident(w)])
           == HlslCall(world, f, [world.ident(v), world.ident(w)])
  {
    var args := MoreArgs(Ident(v), [], LastArg(Ident(w)));
    assert EvalArgs(g, Hlsl(world), LastArg(Ident(w))) == [world.ident(w)];
    assert EvalArgs(g, Hlsl(world), args) == [world.ident(v), world.ident(w)];
    assert FaithfulArgs(g, LastArg(Ident(w)), map[]) && FaithfulArgs(g, args, map[]);
    assert AgreesOn(g, Hlsl(world), Glsl(world), map[], Ident(v));
    assert AgreesOnArgs(g, Hlsl(world), Glsl(world), map[], LastArg(Ident(w)));
    assert AgreesOnArgs(g, Hlsl(world), Glsl(world), map[], args);
    TranslationMeansSame(g, Hlsl(world), Glsl(world), map[], Call(f, args));
  }

  /** `fmod`: where the quotient is not negative, or whole. */
  lemma FmodMeansSame(g: Shader, world: World, v: string, w: string, x: real, y: real)
    requires Renamed(g, "fmod") == "mod" && world.ident(v) == Scalar(x) && world.ident(w) == Scalar(y) && y != 0.0
    ensures var e := Call("fmod", MoreArgs(Ident(v), [], LastArg(Ident(w))));
      Eval(g, Glsl(world), Translate(g, e)) == Eval(g, Hlsl(world), e)
      <==> x / y >= 0.0 || x / y == (x / y).Floor as real
  {
    CallMeansSame(g, world, "fmod", v, w);
    FmodIsMod(x, y);
  }

  /** A matrix made of two rows: where it is symmetric. */
  lemma MatrixMeansSame(g: Shader, world: World, f: string, v: string, w: string)
    requires f in HLSL_MATRICES && Renamed(g, f) in GLSL_MATRICES
    requires world.ident(v).Vector? && world.ident(w).Vector?
    ensures var e := Call(f, MoreArgs(Ident(v), [], LastArg(Ident(w))));
      Eval(g, Glsl(world), Translate(g, e)) == Eval(g, Hlsl(world), e) <==> world.ident(v).y == world.ident(w).x
  {
    CallMeansSame(g, world, f, v, w);
    MatrixAgrees([world.ident(v), world.ident(w)]);
  }

  /** The walker's tables do rename the constructors like that. */
  lemma MatricesRenamed(g: Shader, f: string)
    requires g.types == TYPES && f in HLSL_MATRICES
    ensures Renamed(g, f) in GLSL_MATRICES
  {
  }

  // ---------- The walker's tables ----------

  datatype Element = Real | Integer | Natural

  datatype TextureKind = Flat | Deep | Cube | Rectangle

  datatype ShaderType =
    | VectorType(element: Element, size: nat)
    | MatrixType(rows: nat, columns: nat)
    | TextureType(kind: TextureKind)

  /** What the names of types stand for. HLSL names a matrix's rows first, GLSL its columns. */
  const HLSL_TYPES: map<string, ShaderType> := map[
    "float2" := VectorType(Real, 2), "float3" := VectorType(Real, 3), "float4" := VectorType(Real, 4),
    "int2" := VectorType(Integer, 2), "int3" := VectorType(Integer, 3), "int4" := VectorType(Integer, 4),
    "uint2" := VectorType(Natural, 2), "uint3" := VectorType(Natural, 3), "uint4" := VectorType(Natural, 4),
    "float3x3" := MatrixType(3, 3), "float3x4" := MatrixType(3, 4), "float4x4" := MatrixType(4, 4),
    "texture2d" := TextureType(Flat), "texture3d" := TextureType(Deep), "texture_cube" := TextureType(Cube),
    "texture_rect" := TextureType(Rectangle)]

  const GLSL_TYPES: map<string, ShaderType> := map[
    "vec2" := VectorType(Real, 2), "vec3" := VectorType(Real, 3), "vec4" := VectorType(Real, 4),
    "ivec2" := VectorType(Integer, 2), "ivec3" := VectorType(Integer, 3), "ivec4" := VectorType(Integer, 4),
    "uvec2" := VectorType(Natural, 2), "uvec3" := VectorType(Natural, 3), "uvec4" := VectorType(Natural, 4),
    "mat3x3" := MatrixType(3, 3), "mat3x4" := MatrixType(4, 3), "mat4x4" := MatrixType(4, 4),
    "sampler2D" := TextureType(Flat), "sampler3D" := TextureType(Deep), "samplerCube" := TextureType(Cube),
    "sampler2DRect" := TextureType(Rectangle)]

  /** Every type is renamed to one that is the same, except the one matrix that is not square: it becomes its
      transpose. */
  lemma TypesMeanSame(name: string)
    requires name in TYPES
    ensures name in HLSL_TYPES && TYPES[name] in GLSL_TYPES
    ensures HLSL_TYPES[name] == GLSL_TYPES[TYPES[name]] <==> name != "float3x4"
    ensures name == "float3x4" ==> GLSL_TYPES[TYPES[name]] == MatrixType(4, 3)
  {
  }

  /** What the renamed intrinsics compute. */
  datatype Intrinsic = ArcTangent | ChangeInX | ChangeInY | Fraction | Blend | InverseRoot

  const HLSL_INTRINSICS: map<string, Intrinsic> := map[
    "atan2" := ArcTangent, "ddx" := ChangeInX, "ddy" := ChangeInY, "frac" := Fraction, "lerp" := Blend,
    "rsqrt" := InverseRoot]

  const GLSL_INTRINSICS: map<string, Intrinsic> := map[
    "atan" := ArcTangent, "dFdx" := ChangeInX, "dFdy" := ChangeInY, "fract" := Fraction, "mix" := Blend,
    "inversesqrt" := InverseRoot]

  /** The two libraries have these functions and the constructors of vectors. */
  ghost predicate Standard(
    world: World, known: (Intrinsic, seq<Value>) -> Value, made: (ShaderType, seq<Value>) -> Value)
  {
    && (forall f, args :: f in HLSL_INTRINSICS ==> world.hlsl(f, args) == known(HLSL_INTRINSICS[f], args))
    && (forall f, args :: f in GLSL_INTRINSICS ==> world.library(f, args) == known(GLSL_INTRINSICS[f], args))
    && (forall f, args :: f in HLSL_TYPES ==> world.hlsl(f, args) == made(HLSL_TYPES[f], args))
    && (forall f, args :: f in GLSL_TYPES ==> world.library(f, args) == made(GLSL_TYPES[f], args))
  }

  lemma IntrinsicsRenamed(name: string)
    requires name in RENAMES && name != "fmod"
    ensures name !in TYPES
    ensures name in HLSL_INTRINSICS && RENAMES[name] in GLSL_INTRINSICS
    ensures HLSL_INTRINSICS[name] == GLSL_INTRINSICS[RENAMES[name]]
  {
  }

  /** With the walker's tables, every intrinsic that is renamed, `fmod` apart, and every vector that is constructed,
      is the same function in GLSL's library, so that such functions are shared. */
  lemma RenamesMeanSame(g: Shader, world: World, known: (Intrinsic, seq<Value>) -> Value,
                        made: (ShaderType, seq<Value>) -> Value, f: string, args: seq<Value>)
    requires g.types == TYPES && g.renames == RENAMES && Standard(world, known, made)
    requires (f in RENAMES && f != "fmod") || (f in TYPES && f in HLSL_TYPES && HLSL_TYPES[f].VectorType?)
    ensures world.hlsl(f, args) == world.library(Renamed(g, f), args)
  {
    if f in RENAMES && f != "fmod" {
      IntrinsicsRenamed(f);
      assert Renamed(g, f) == RENAMES[f];
    } else {
      TypesMeanSame(f);
    }
  }
}
