/**
 The token walker as the object it is: every method appends to the GLSL text and moves along the token array
 (libobs-opengl/gl-shaderparser.c). The functions of `ShaderTranslator` say what each method does.
 */
module ShaderWalker {
  import opened Bytes
  import opened ShaderTranslator

  lemma Behind(tokens: seq<Token>, p: nat)
    requires p < |tokens|
    ensures tokens[p..] != [] && tokens[p..][0] == tokens[p] && tokens[p..][1..] == tokens[p + 1..]
  {
  }

  /** `struct gl_shader_parser`, and the current token of its parser; the token behind the last has no type. */
  class GlShaderParser {
    const shader: Shader
    const tokens: seq<Token>
    var curToken: nat
    var glString: string
    var sincosCounter: nat
    var samplerIds: map<string, nat>

    ghost function View(): State
      reads this
    {
      State(glString, sincosCounter, samplerIds)
    }

    ghost predicate Valid()
      reads this
    {
      curToken <= |tokens|
    }

    constructor (shader: Shader, tokens: seq<Token>)
      ensures Valid() && this.shader == shader && this.tokens == tokens
      ensures View() == State("", 1, map[])
    {
      this.shader, this.tokens := shader, tokens;
      curToken, glString, sincosCounter, samplerIds := 0, "", 1, map[];
    }

    method Cat(text: string)
      requires Valid()
      modifies this`glString
      ensures View() == old(View()).Say(text)
    {
      glString := glString + text;
    }

    /** `cf_next_token` */
    method NextToken() returns (more: bool)
      requires Valid()
      modifies this`curToken
      ensures Valid() && tokens[curToken..] == ShaderTranslator.NextToken(tokens[old(curToken)..])
      ensures more == (curToken < |tokens|)
      ensures old(curToken) < |tokens| ==> curToken > old(curToken)
    {
      if curToken < |tokens| {
        Behind(tokens, curToken);
        curToken := curToken + 1;
      }
      ghost var all := SkipSpaces(tokens[curToken..]);
      while curToken < |tokens| && tokens[curToken].IsSpace()
        invariant curToken <= |tokens| && old(curToken) <= curToken
        invariant old(curToken) < |tokens| ==> curToken > old(curToken)
        invariant SkipSpaces(tokens[curToken..]) == all
      {
        Behind(tokens, curToken);
        curToken := curToken + 1;
      }
      more := curToken < |tokens|;
    }

    method TokenIs(text: string) returns (r: bool)
      requires Valid()
      ensures r == At(tokens[curToken..], text)
    {
      r := curToken < |tokens| && tokens[curToken].text == text;
    }

    method WriteFunctionContents(p: nat, end: string) returns (next: nat)
      requires Valid() && p <= |tokens|
      modifies this
      ensures Valid() && p <= next <= |tokens|
      ensures Walk(View(), tokens[next..], true) == Contents(shader, tokens[p..], end, old(View()))
      decreases |tokens| - p, 4
    {
      next := p;
      if next < |tokens| {
        Behind(tokens, next);
        next := WriteWord(next);
      }
      next := WriteLoop(next, end);
    }

    /** The loop of `gl_write_function_contents`, behind token `p`. */
    method WriteLoop(p: nat, end: string) returns (next: nat)
      requires Valid() && p <= |tokens|
      modifies this
      ensures Valid() && p <= next <= |tokens|
      ensures Walk(View(), tokens[next..], true) ==
        if p == |tokens| then Walk(old(View()), [], true) else Loop(shader, tokens[p + 1..], end, old(View()))
      decreases |tokens| - p, 0
    {
      next := p;
      ghost var all := if p == |tokens| then Walk(View(), [], true) else Loop(shader, tokens[p + 1..], end, View());
      while next < |tokens|
        invariant p <= next <= |tokens| && Valid()
        invariant next < |tokens| ==> Loop(shader, tokens[next + 1..], end, View()) == all
        invariant next == |tokens| ==> Walk(View(), [], true) == all
      {
        next := next + 1;
        if next < |tokens| {
          Behind(tokens, next);
          if tokens[next].text == end {
            return;
          }
          next := WriteLoopToken(next);
          if next < |tokens| {
            Behind(tokens, next);
          }
        }
      }
    }

    /** One turn of the loop. */
    method WriteLoopToken(p: nat) returns (next: nat)
      requires Valid() && p < |tokens|
      modifies this
      ensures Valid() && p <= next <= |tokens|
      ensures Walk(View(), tokens[next..], true) == LoopToken(shader, tokens[p..], old(View()))
      decreases |tokens| - p, 5
    {
      Behind(tokens, p);
      var t := tokens[p];
      if t.kind == Other && t.text != "" && (t.text[0] == '{' || t.text[0] == '(') {
        next := WriteFunctionContents(p, if t.text[0] == '{' then "}" else ")");
        if next < |tokens| {
          Behind(tokens, next);
          Cat(tokens[next].text);
        } else {
          Cat("");
        }
      } else {
        next := WriteWord(p);
      }
    }

    method WriteWord(p: nat) returns (next: nat)
      requires Valid() && p < |tokens|
      modifies this
      ensures Valid() && p <= next <= |tokens|
      ensures Walk(View(), tokens[next..], true) == Word(shader, tokens[p..], old(View()))
      decreases |tokens| - p, 3
    {
      Behind(tokens, p);
      next := p;
      if tokens[p].kind != Name {
        Cat(tokens[p].text);
      } else if tokens[p].text in shader.types {
        Cat(shader.types[tokens[p].text]);
      } else {
        var written;
        written, next := WriteIntrinsic(p);
        if !written {
          next := p;
          Cat(tokens[p].text);
        }
      }
    }

    /** `next` is where the token pointer stands, if something was written. */
    method WriteIntrinsic(p: nat) returns (written: bool, next: nat)
      requires Valid() && p < |tokens|
      modifies this
      ensures Valid() && p <= next <= |tokens|
      ensures Walk(View(), tokens[next..], written) == Intrinsic(shader, tokens[p..], old(View()))
      decreases |tokens| - p, 2
    {
      Behind(tokens, p);
      var name := tokens[p].text;
      written, next := true, p;
      if name in shader.renames {
        Cat(shader.renames[name]);
      } else if name == "mad" {
        written, next := WriteMad(p);
      } else if name == "mul" {
        written, next := WriteMul(p);
      } else if name == "saturate" {
        written, next := WriteSaturate(p);
      } else if name == "sincos" {
        written, next := WriteSincos(p);
      } else {
        var param := GetParam(name);
        if param.Some? && shader.params[param.value].texture {
          written, next := WriteTextureCode(p, shader.params[param.value]);
        } else {
          written := false;
        }
      }
    }

    /** `sp_getparam` */
    method GetParam(name: string) returns (r: Option<nat>)
      ensures r == ParamIndex(shader.params, name)
    {
      for i := 0 to |shader.params|
        invariant ParamIndex(shader.params, name) ==
          match ParamIndex(shader.params[i..], name) case None => None case Some(k) => Some(i + k)
      {
        if shader.params[i].name == name {
          return Some(i);
        }
        assert shader.params[i..][1..] == shader.params[i + 1..];
      }
      return None;
    }

    /** `sp_getsampler` */
    method GetSampler(name: string) returns (r: Option<nat>)
      ensures r == SamplerIndex(shader.samplers, name)
    {
      for i := 0 to |shader.samplers|
        invariant SamplerIndex(shader.samplers, name) ==
          match SamplerIndex(shader.samplers[i..], name) case None => None case Some(k) => Some(i + k)
      {
        if shader.samplers[i] == name {
          return Some(i);
        }
        assert shader.samplers[i..][1..] == shader.samplers[i + 1..];
      }
      return None;
    }

    method WriteMul(p: nat) returns (written: bool, next: nat)
      requires Valid() && p < |tokens|
      modifies this
      ensures Valid() && p <= next <= |tokens|
      ensures Walk(View(), tokens[next..], written) == Mul(shader, tokens[p..], old(View()))
      decreases |tokens| - p, 1
    {
      curToken := p;
      var _ := NextToken();
      var open := TokenIs("(");
      if !open {
        return false, p;
      }
      Cat("(");
      curToken := WriteFunctionContents(curToken, ",");
      Cat(") * (");
      var _ := NextToken();
      curToken := WriteFunctionContents(curToken, ")");
      Cat("))");
      return true, curToken;
    }

    method WriteMad(p: nat) returns (written: bool, next: nat)
      requires Valid() && p < |tokens|
      modifies this
      ensures Valid() && p <= next <= |tokens|
      ensures Walk(View(), tokens[next..], written) == Mad(shader, tokens[p..], old(View()))
      decreases |tokens| - p, 1
    {
      curToken := p;
      var _ := NextToken();
      var open := TokenIs("(");
      if !open {
        return false, p;
      }
      Cat("(");
      curToken := WriteFunctionContents(curToken, ",");
      Cat(") * (");
      var _ := NextToken();
      curToken := WriteFunctionContents(curToken, ",");
      Cat(") + (");
      var _ := NextToken();
      curToken := WriteFunctionContents(curToken, ")");
      Cat("))");
      return true, curToken;
    }

    method WriteSaturate(p: nat) returns (written: bool, next: nat)
      requires Valid() && p < |tokens|
      modifies this
      ensures Valid() && p <= next <= |tokens|
      ensures Walk(View(), tokens[next..], written) == Saturate(shader, tokens[p..], old(View()))
      decreases |tokens| - p, 1
    {
      curToken := p;
      var _ := NextToken();
      var open := TokenIs("(");
      if !open {
        return false, p;
      }
      Cat("clamp");
      curToken := WriteFunctionContents(curToken, ")");
      Cat(", 0.0, 1.0)");
      return true, curToken;
    }

    method DeclareSincosVar() returns (name: string)
      requires Valid()
      modifies this`glString, this`sincosCounter
      ensures name == SincosVar(old(sincosCounter))
      ensures View() == SincosStart(old(View()))
    {
      name := SincosVar(sincosCounter);
      sincosCounter := sincosCounter + 1;
      Cat("float ");
      Cat(name);
      Cat(" = ");
    }

    method WriteSincos(p: nat) returns (written: bool, next: nat)
      requires Valid() && p < |tokens|
      modifies this
      ensures Valid() && p <= next <= |tokens|
      ensures Walk(View(), tokens[next..], written) == Sincos(shader, tokens[p..], old(View()))
      decreases |tokens| - p, 1
    {
      curToken := p;
      var _ := NextToken();
      var open := TokenIs("(");
      if !open {
        return false, p;
      }
      var name := DeclareSincosVar();
      curToken := WriteFunctionContents(curToken, ",");
      Cat("); ");
      written, next := WriteSincosTargets(p, name);
    }

    method WriteSincosTargets(p: nat, name: string) returns (written: bool, next: nat)
      requires Valid() && p < |tokens| && p < curToken
      modifies this
      ensures Valid() && p <= next <= |tokens|
      ensures Walk(View(), tokens[next..], written)
           == SincosTargets(shader, tokens[p..], tokens[old(curToken)..], name, old(View()))
      decreases |tokens| - p, 0
    {
      var more := NextToken();
      if !more {
        return false, p;
      }
      curToken := WriteFunctionContents(curToken, ",");
      Cat(" = sin(");
      Cat(name);
      Cat("); ");
      more := NextToken();
      if !more {
        return false, p;
      }
      curToken := WriteFunctionContents(curToken, ")");
      Cat(" = cos(");
      Cat(name);
      Cat(")");
      return true, curToken;
    }

    /** The call is written up to its second argument; the current token is the comma or the parenthesis before it. */
    method WriteTextureCall(param: Param, call: string, sampler: bool) returns (written: bool)
      requires Valid()
      modifies this
      ensures Valid() && curToken >= old(curToken)
      ensures var w := TextureCall(shader, tokens[old(curToken)..], param, call, sampler, old(View()));
        View() == w.state && written == w.ok && (written ==> tokens[curToken..] == w.rest)
    {
      var _ := NextToken();
      var open := TokenIs("(");
      if !open {
        return false;
      }
      if sampler {
        var more := NextToken();
        if !more {
          return false;
        }
        Behind(tokens, curToken);
        var samplerId := GetSampler(tokens[curToken].text);
        if samplerId.None? {
          return false;
        }
        var _ := NextToken();
        var comma := TokenIs(",");
        if !comma {
          return false;
        }
        samplerIds := samplerIds[param.name := samplerId.value];
      }
      Cat(call);
      Cat("(");
      Cat(param.name);
      Cat(", ");
      return true;
    }

    method WriteTextureCode(p: nat, param: Param) returns (written: bool, next: nat)
      requires Valid() && p < |tokens|
      modifies this
      ensures Valid() && p <= next <= |tokens|
      ensures Walk(View(), tokens[next..], written) == TextureCode(shader, tokens[p..], param, old(View()))
      decreases |tokens| - p, 1
    {
      curToken := p;
      var _ := NextToken();
      var dot := TokenIs(".");
      if !dot {
        return false, p;
      }
      var more := NextToken();
      if !more {
        return false, p;
      }
      Behind(tokens, curToken);
      var call := TextureFunction(param, tokens[curToken].text);
      if call.None? {
        return false, p;
      }
      var ok := WriteTextureCall(param, call.value.0, call.value.1);
      if !ok {
        return false, p;
      }
      more := NextToken();
      if !more {
        return false, p;
      }
      curToken := WriteFunctionContents(curToken, ")");
      Cat(")");
      return true, curToken;
    }
  }
}
