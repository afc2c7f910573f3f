/**
 A GLSL shader has no structs for input and output, so each member becomes a variable with a flattened name. One
 traversal declares them, another one assigns them in `main` (libobs-opengl/gl-shaderparser.c). Both are related to the
 list of leaves of the nested structs.
 */
module StorageNames {
  import opened Bytes

  datatype Stage = Vertex | Pixel

  datatype Var = Var(name: string, kind: string, mapping: string)

  datatype Struct = Struct(name: string, vars: seq<Var>)

  datatype Parser = Parser(structs: seq<Struct>, stage: Stage)

  const POSITION := "POSITION"
  const VERTEXID := "VERTEXID"

  /** `shader_parser_getstruct` */
  function GetStruct(structs: seq<Struct>, name: string): (r: Option<Struct>)
    decreases |structs|
  {
    if structs == [] then None
    else if structs[0].name == name then Some(structs[0])
    else GetStruct(structs[1..], name)
  }

  /** No struct contains itself: the rank of a member's type is lower. */
  ghost predicate Acyclic(structs: seq<Struct>, rank: string -> nat) {
    forall name, j :: GetStruct(structs, name).Some? && 0 <= j < |GetStruct(structs, name).value.vars| ==>
      Below(structs, rank, GetStruct(structs, name).value.vars[j], rank(name))
  }

  ghost predicate Below(structs: seq<Struct>, rank: string -> nat, v: Var, bound: nat) {
    GetStruct(structs, v.kind).Some? ==> rank(v.kind) < bound
  }

  ghost function Level(structs: seq<Struct>, rank: string -> nat, v: Var): nat {
    if GetStruct(structs, v.kind).Some? then rank(v.kind) + 1 else 0
  }

  ghost predicate AllBelow(structs: seq<Struct>, rank: string -> nat, vars: seq<Var>, bound: nat) {
    forall j :: 0 <= j < |vars| ==> Below(structs, rank, vars[j], bound)
  }

  // ---------- The leaves ----------

  /** A variable that is no struct, and the names that lead to it. */
  datatype Leaf = Leaf(path: seq<string>, v: Var)

  ghost function Leaves(p: Parser, rank: string -> nat, v: Var, path: seq<string>): seq<Leaf>
    requires Acyclic(p.structs, rank)
    decreases Level(p.structs, rank, v), 0
  {
    var st := GetStruct(p.structs, v.kind);
    if st.None? then [Leaf(path, v)]
    else LeavesOf(p, rank, st.value.vars, path + [v.name], rank(v.kind))
  }

  ghost function LeavesOf(p: Parser, rank: string -> nat, vars: seq<Var>, path: seq<string>, bound: nat): seq<Leaf>
    requires Acyclic(p.structs, rank) && AllBelow(p.structs, rank, vars, bound)
    decreases bound, 1, |vars|
  {
    if vars == [] then [] else Leaves(p, rank, vars[0], path) + LeavesOf(p, rank, vars[1..], path, bound)
  }

  /** The names of a path, each followed by the separator. */
  function Prefix(path: seq<string>, sep: char): string
    decreases |path|
  {
    if path == [] then "" else Prefix(path[..|path| - 1], sep) + path[|path| - 1] + [sep]
  }

  lemma PrefixAppend(path: seq<string>, name: string, sep: char)
    ensures Prefix(path + [name], sep) == Prefix(path, sep) + name + [sep]
  {
    assert (path + [name])[..|path|] == path;
  }

  lemma InnerPrefix(root: seq<string>, path: seq<string>, name: string, sep: char)
    ensures Prefix(root + (path + [name]), sep) == Prefix(root + path, sep) + name + [sep]
    ensures root == [] ==> root + path == path && root + (path + [name]) == path + [name]
  {
    assert (root + path) + [name] == root + (path + [name]);
    PrefixAppend(root + path, name, sep);
  }

  // ---------- Declarations ----------

  /** A line that declares a variable for input or output; also what is noted in the list of attributes. */
  datatype Declaration = Declaration(input: bool, kind: string, name: string, mapping: string)

  /** Variables for which GLSL has its own: `gl_VertexID`, `gl_Position` and `gl_FragCoord`. */
  predicate BuiltIn(p: Parser, mapping: string, input: bool) {
    || (input && mapping == VERTEXID)
    || (mapping == POSITION && !input && p.stage == Vertex)
    || (mapping == POSITION && input && p.stage == Pixel)
  }

  /** What is declared for a list of leaves. */
  ghost function DeclaredFor(p: Parser, leaves: seq<Leaf>, root: seq<string>, input: bool): seq<Declaration>
    decreases |leaves|
  {
    if leaves == [] then []
    else
      var l := leaves[0];
      (if BuiltIn(p, l.v.mapping, input) then []
       else [Declaration(input, l.v.kind, Prefix(root + l.path, '_') + l.v.name, l.v.mapping)])
      + DeclaredFor(p, leaves[1..], root, input)
  }

  lemma {:induction false} DeclaredForAppend(p: Parser, a: seq<Leaf>, b: seq<Leaf>, root: seq<string>, input: bool)
    ensures DeclaredFor(p, a + b, root, input) == DeclaredFor(p, a, root, input) + DeclaredFor(p, b, root, input)
    decreases |a|
  {
    if a == [] {
      assert [] + b == b;
    } else {
      assert (a + b)[1..] == a[1..] + b;
      DeclaredForAppend(p, a[1..], b, root, input);
    }
  }

  // ---------- Assignments ----------

  datatype Source = Storage(name: string) | GlVertexID | GlFragCoord

  /** A line of `main`; the target `gl_Position` stands for itself. */
  datatype Assignment = Assign(target: string, source: Source) | AssignPosition(value: string)

  function SourceOf(p: Parser, v: Var, src: string, input: bool): Source {
    if input && v.mapping == VERTEXID then GlVertexID
    else if input && p.stage == Pixel && v.mapping == POSITION then GlFragCoord
    else Storage(src + v.name)
  }

  /** The lines for one variable that is no struct. */
  function LeafLines(p: Parser, v: Var, target: string, src: string, input: bool): seq<Assignment> {
    (if input || p.stage != Vertex || v.mapping != POSITION then [Assign(target, SourceOf(p, v, src, input))] else [])
    + (if !input && p.stage == Vertex && v.mapping == POSITION then [AssignPosition(src + v.name)] else [])
  }

  function Left(input: bool): char { if input then '.' else '_' }

  function Right(input: bool): char { if input then '_' else '.' }

  /** What is assigned for a list of leaves. */
  ghost function AssignedFor(p: Parser, leaves: seq<Leaf>, root: seq<string>, input: bool): seq<Assignment>
    decreases |leaves|
  {
    if leaves == [] then []
    else
      var l := leaves[0];
      LeafLines(p, l.v, Prefix(l.path, Left(input)) + l.v.name, Prefix(root + l.path, Right(input)), input)
      + AssignedFor(p, leaves[1..], root, input)
  }

  lemma {:induction false} AssignedForAppend(p: Parser, a: seq<Leaf>, b: seq<Leaf>, root: seq<string>, input: bool)
    ensures AssignedFor(p, a + b, root, input) == AssignedFor(p, a, root, input) + AssignedFor(p, b, root, input)
    decreases |a|
  {
    if a == [] {
      assert [] + b == b;
    } else {
      assert (a + b)[1..] == a[1..] + b;
      AssignedForAppend(p, a[1..], b, root, input);
    }
  }

  // ---------- Agreement ----------

  function Names(ds: seq<Declaration>): seq<string>
    decreases |ds|
  {
    if ds == [] then [] else [ds[0].name] + Names(ds[1..])
  }

  /** The storage variables that are read, in order. */
  function Sources(lines: seq<Assignment>): seq<string>
    decreases |lines|
  {
    if lines == [] then []
    else if lines[0].Assign? && lines[0].source.Storage? then [lines[0].source.name] + Sources(lines[1..])
    else Sources(lines[1..])
  }

  /** The variables that are written, in order; `gl_Position` aside. */
  function Targets(lines: seq<Assignment>): seq<string>
    decreases |lines|
  {
    if lines == [] then []
    else if lines[0].Assign? then [lines[0].target] + Targets(lines[1..])
    else Targets(lines[1..])
  }

  /** Inputs: the names declared are the names read. */
  lemma {:induction false} InputsAgree(p: Parser, leaves: seq<Leaf>, root: seq<string>)
    ensures Names(DeclaredFor(p, leaves, root, true)) == Sources(AssignedFor(p, leaves, root, true))
    decreases |leaves|
  {
    if leaves == [] {
    } else {
      InputsAgree(p, leaves[1..], root);
      var l := leaves[0];
      var target, src := Prefix(l.path, '.') + l.v.name, Prefix(root + l.path, '_');
      assert LeafLines(p, l.v, target, src, true) == [Assign(target, SourceOf(p, l.v, src, true))];
      FirstLine(Assign(target, SourceOf(p, l.v, src, true)), AssignedFor(p, leaves[1..], root, true));
      if BuiltIn(p, l.v.mapping, true) {
        assert [] + DeclaredFor(p, leaves[1..], root, true) == DeclaredFor(p, leaves[1..], root, true);
      } else {
        FirstName(Declaration(true, l.v.kind, src + l.v.name, l.v.mapping), DeclaredFor(p, leaves[1..], root, true));
      }
    }
  }

  /** Outputs: the names declared are the names written; every position of a vertex goes to `gl_Position`. */
  lemma {:induction false} OutputsAgree(p: Parser, leaves: seq<Leaf>)
    ensures Names(DeclaredFor(p, leaves, [], false)) == Targets(AssignedFor(p, leaves, [], false))
    decreases |leaves|
  {
    if leaves == [] {
    } else {
      OutputsAgree(p, leaves[1..]);
      var l := leaves[0];
      assert [] + l.path == l.path;
      var name, src := Prefix(l.path, '_') + l.v.name, Prefix(l.path, '.');
      var rest := AssignedFor(p, leaves[1..], [], false);
      if BuiltIn(p, l.v.mapping, false) {
        assert LeafLines(p, l.v, name, src, false) == [AssignPosition(src + l.v.name)];
        FirstLine(AssignPosition(src + l.v.name), rest);
        assert [] + DeclaredFor(p, leaves[1..], [], false) == DeclaredFor(p, leaves[1..], [], false);
      } else {
        assert LeafLines(p, l.v, name, src, false) == [Assign(name, SourceOf(p, l.v, src, false))];
        FirstLine(Assign(name, SourceOf(p, l.v, src, false)), rest);
        FirstName(Declaration(false, l.v.kind, name, l.v.mapping), DeclaredFor(p, leaves[1..], [], false));
      }
    }
  }

  /**
   Leaf by leaf: the lines of `main` give every input leaf its value under its own dotted name. `VERTEXID` gets
   `gl_VertexID`, the position of a pixel gets `gl_FragCoord`, and any other leaf the variable that is declared for it,
   with its type and mapping.
   */
  lemma {:induction false} InputLeafRead(p: Parser, leaves: seq<Leaf>, root: seq<string>, i: nat)
    requires i < |leaves|
    ensures var lines, l := AssignedFor(p, leaves, root, true), leaves[i];
      && |lines| == |leaves|
      && lines[i].Assign? && lines[i].target == Prefix(l.path, '.') + l.v.name
      && (l.v.mapping == "VERTEXID" ==> lines[i].source == GlVertexID)
      && (l.v.mapping == "POSITION" && p.stage == Pixel ==> lines[i].source == GlFragCoord)
      && (l.v.mapping != "VERTEXID" && !(l.v.mapping == "POSITION" && p.stage == Pixel) ==>
            var name := Prefix(root + l.path, '_') + l.v.name;
            && lines[i].source == Storage(name)
            && Declaration(true, l.v.kind, name, l.v.mapping) in DeclaredFor(p, leaves, root, true))
    decreases i
  {
    LinesPerLeaf(p, leaves, root, true);
    if i == 0 {
    } else {
      InputLeafRead(p, leaves[1..], root, i - 1);
    }
  }

  /** And every output leaf is written under its flattened name, from its dotted name: the position of a vertex to
      `gl_Position`, any other leaf to the variable declared for it. */
  lemma {:induction false} OutputLeafWritten(p: Parser, leaves: seq<Leaf>, i: nat)
    requires i < |leaves|
    ensures var lines, l := AssignedFor(p, leaves, [], false), leaves[i];
      var value := Prefix([] + l.path, '.') + l.v.name;
      && |lines| == |leaves|
      && (l.v.mapping == "POSITION" && p.stage == Vertex ==> lines[i] == AssignPosition(value))
      && (!(l.v.mapping == "POSITION" && p.stage == Vertex) ==>
            var name := Prefix(l.path, '_') + l.v.name;
            && lines[i] == Assign(name, Storage(value))
            && Declaration(false, l.v.kind, Prefix([] + l.path, '_') + l.v.name, l.v.mapping)
                 in DeclaredFor(p, leaves, [], false)
            && [] + l.path == l.path)
    decreases i
  {
    LinesPerLeaf(p, leaves, [], false);
    assert [] + leaves[i].path == leaves[i].path;
    if i == 0 {
    } else {
      OutputLeafWritten(p, leaves[1..], i - 1);
    }
  }

  /** One line for every leaf. */
  lemma {:induction false} LinesPerLeaf(p: Parser, leaves: seq<Leaf>, root: seq<string>, input: bool)
    ensures |AssignedFor(p, leaves, root, input)| == |leaves|
    ensures leaves != [] ==>
      AssignedFor(p, leaves, root, input)[1..] == AssignedFor(p, leaves[1..], root, input)
    decreases |leaves|
  {
    if leaves == [] {
    } else {
      LinesPerLeaf(p, leaves[1..], root, input);
    }
  }

  lemma FirstLine(line: Assignment, rest: seq<Assignment>)
    ensures Sources([line] + rest) ==
      (if line.Assign? && line.source.Storage? then [line.source.name] else []) + Sources(rest)
    ensures Targets([line] + rest) == (if line.Assign? then [line.target] else []) + Targets(rest)
  {
    assert ([line] + rest)[1..] == rest;
  }

  lemma FirstName(d: Declaration, rest: seq<Declaration>)
    ensures Names([d] + rest) == [d.name] + Names(rest)
  {
    assert ([d] + rest)[1..] == rest;
  }

  // ---------- The two traversals ----------

  lemma MembersBelow(p: Parser, rank: string -> nat, v: Var)
    requires Acyclic(p.structs, rank) && GetStruct(p.structs, v.kind).Some?
    ensures AllBelow(p.structs, rank, GetStruct(p.structs, v.kind).value.vars, rank(v.kind))
  {
  }

  lemma LeavesStep(p: Parser, rank: string -> nat, vars: seq<Var>, i: nat, path: seq<string>, bound: nat)
    requires Acyclic(p.structs, rank) && AllBelow(p.structs, rank, vars, bound) && i < |vars|
    ensures LeavesOf(p, rank, vars[i..], path, bound)
         == Leaves(p, rank, vars[i], path) + LeavesOf(p, rank, vars[i + 1..], path, bound)
  {
    assert vars[i..][1..] == vars[i + 1..];
  }

  /** What is declared, or assigned, for the variables from the i-th on. */
  ghost function DeclaredFrom(p: Parser, rank: string -> nat, vars: seq<Var>, i: nat, path: seq<string>, bound: nat,
                              root: seq<string>, input: bool): seq<Declaration>
    requires Acyclic(p.structs, rank) && AllBelow(p.structs, rank, vars, bound) && i <= |vars|
  {
    DeclaredFor(p, LeavesOf(p, rank, vars[i..], path, bound), root, input)
  }

  ghost function AssignedFrom(p: Parser, rank: string -> nat, vars: seq<Var>, i: nat, path: seq<string>, bound: nat,
                              root: seq<string>, input: bool): seq<Assignment>
    requires Acyclic(p.structs, rank) && AllBelow(p.structs, rank, vars, bound) && i <= |vars|
  {
    AssignedFor(p, LeavesOf(p, rank, vars[i..], path, bound), root, input)
  }

  lemma FromEnds(p: Parser, rank: string -> nat, vars: seq<Var>, path: seq<string>, bound: nat, root: seq<string>,
                 input: bool)
    requires Acyclic(p.structs, rank) && AllBelow(p.structs, rank, vars, bound)
    ensures DeclaredFrom(p, rank, vars, 0, path, bound, root, input)
         == DeclaredFor(p, LeavesOf(p, rank, vars, path, bound), root, input)
    ensures AssignedFrom(p, rank, vars, 0, path, bound, root, input)
         == AssignedFor(p, LeavesOf(p, rank, vars, path, bound), root, input)
    ensures DeclaredFrom(p, rank, vars, |vars|, path, bound, root, input) == []
    ensures AssignedFrom(p, rank, vars, |vars|, path, bound, root, input) == []
  {
    assert vars[0..] == vars && vars[|vars|..] == [];
    assert LeavesOf(p, rank, [], path, bound) == [];
  }

  lemma DeclaredStep(p: Parser, rank: string -> nat, vars: seq<Var>, i: nat, path: seq<string>, bound: nat,
                     root: seq<string>, input: bool, ds: seq<Declaration>)
    requires Acyclic(p.structs, rank) && AllBelow(p.structs, rank, vars, bound) && i < |vars|
    ensures ds + DeclaredFrom(p, rank, vars, i, path, bound, root, input)
         == (ds + DeclaredFor(p, Leaves(p, rank, vars[i], path), root, input))
            + DeclaredFrom(p, rank, vars, i + 1, path, bound, root, input)
  {
    LeavesStep(p, rank, vars, i, path, bound);
    DeclaredForAppend(p, Leaves(p, rank, vars[i], path), LeavesOf(p, rank, vars[i + 1..], path, bound), root, input);
  }

  lemma AssignedStep(p: Parser, rank: string -> nat, vars: seq<Var>, i: nat, path: seq<string>, bound: nat,
                     root: seq<string>, input: bool, lines: seq<Assignment>)
    requires Acyclic(p.structs, rank) && AllBelow(p.structs, rank, vars, bound) && i < |vars|
    ensures lines + AssignedFrom(p, rank, vars, i, path, bound, root, input)
         == (lines + AssignedFor(p, Leaves(p, rank, vars[i], path), root, input))
            + AssignedFrom(p, rank, vars, i + 1, path, bound, root, input)
  {
    LeavesStep(p, rank, vars, i, path, bound);
    AssignedForAppend(p, Leaves(p, rank, vars[i], path), LeavesOf(p, rank, vars[i + 1..], path, bound), root, input);
  }

  /** `struct gl_shader_parser`, as far as storage variables go: the declarations, the lines of `main`, and the list of
      attributes that are renamed afterwards. */
  class StorageWriter {
    const parser: Parser
    var declarations: seq<Declaration>
    var lines: seq<Assignment>
    var attribs: seq<Declaration>

    constructor (parser: Parser)
      ensures this.parser == parser && declarations == [] && lines == [] && attribs == []
    {
      this.parser := parser;
      declarations, lines, attribs := [], [], [];
    }

    method FindStruct(name: string) returns (r: Option<Struct>)
      ensures r == GetStruct(parser.structs, name)
    {
      for i := 0 to |parser.structs|
        invariant GetStruct(parser.structs, name) == GetStruct(parser.structs[i..], name)
      {
        if parser.structs[i].name == name {
          return Some(parser.structs[i]);
        }
        assert parser.structs[i..][1..] == parser.structs[i + 1..];
      }
      return None;
    }

    /** `gl_write_storage_var`; the ghosts say where the variable stands. */
    method WriteStorageVar(v: Var, input: bool, prefix: string, ghost rank: string -> nat, ghost root: seq<string>,
                           ghost path: seq<string>)
      requires Acyclic(parser.structs, rank) && prefix == Prefix(root + path, '_')
      modifies this`declarations, this`attribs
      ensures var added := DeclaredFor(parser, Leaves(parser, rank, v, path), root, input);
        declarations == old(declarations) + added && attribs == old(attribs) + added
      decreases Level(parser.structs, rank, v), 0
    {
      var st := FindStruct(v.kind);
      if st.Some? {
        MembersBelow(parser, rank, v);
        UnwrapStorageStruct(st.value, v.name, input, prefix, rank, root, path, rank(v.kind));
      } else {
        assert DeclaredFor(parser, [], root, input) == [];
        if BuiltIn(parser, v.mapping, input) {
          return;
        }
        var attrib := Declaration(input, v.kind, prefix + v.name, v.mapping);
        declarations := declarations + [attrib];
        attribs := attribs + [attrib];
      }
    }

    /** `gl_unwrap_storage_struct` */
    method UnwrapStorageStruct(st: Struct, name: string, input: bool, prefix: string, ghost rank: string -> nat,
                               ghost root: seq<string>, ghost path: seq<string>, ghost bound: nat)
      requires Acyclic(parser.structs, rank) && AllBelow(parser.structs, rank, st.vars, bound)
      requires prefix == Prefix(root + path, '_')
      modifies this`declarations, this`attribs
      ensures var added := DeclaredFor(parser, LeavesOf(parser, rank, st.vars, path + [name], bound), root, input);
        declarations == old(declarations) + added && attribs == old(attribs) + added
      decreases bound, 1
    {
      var prefixStr := prefix + name + "_";
      ghost var inner := path + [name];
      InnerPrefix(root, path, name, '_');
      ghost var all := DeclaredFrom(parser, rank, st.vars, 0, inner, bound, root, input);
      FromEnds(parser, rank, st.vars, inner, bound, root, input);
      for i := 0 to |st.vars|
        invariant declarations + DeclaredFrom(parser, rank, st.vars, i, inner, bound, root, input)
               == old(declarations) + all
        invariant attribs + DeclaredFrom(parser, rank, st.vars, i, inner, bound, root, input) == old(attribs) + all
      {
        DeclaredStep(parser, rank, st.vars, i, inner, bound, root, input, declarations);
        DeclaredStep(parser, rank, st.vars, i, inner, bound, root, input, attribs);
        WriteStorageVar(st.vars[i], input, prefixStr, rank, root, inner);
      }
    }

    /** `gl_write_main_storage_assign` */
    method WriteMainStorageAssign(v: Var, dst: string, src: string, input: bool, ghost rank: string -> nat,
                                  ghost root: seq<string>, ghost path: seq<string>)
      requires Acyclic(parser.structs, rank)
      requires dst == Prefix(path, Left(input)) && src == Prefix(root + path, Right(input))
      modifies this`lines
      ensures lines == old(lines) + AssignedFor(parser, Leaves(parser, rank, v, path), root, input)
      decreases Level(parser.structs, rank, v), 0
    {
      var dstCopy := dst + v.name;
      var st := FindStruct(v.kind);
      if st.Some? {
        MembersBelow(parser, rank, v);
        AssignMembers(st.value, v.name, dst, src, input, rank, root, path, rank(v.kind));
      } else {
        assert AssignedFor(parser, [], root, input) == [];
        if input || parser.stage != Vertex || v.mapping != POSITION {
          lines := lines + [Assign(dstCopy, SourceOf(parser, v, src, input))];
        }
        if !input {
          WriteMainInterfaceAssign(v, src);
        }
      }
    }

    method AssignMembers(st: Struct, name: string, dst: string, src: string, input: bool, ghost rank: string -> nat,
                         ghost root: seq<string>, ghost path: seq<string>, ghost bound: nat)
      requires Acyclic(parser.structs, rank) && AllBelow(parser.structs, rank, st.vars, bound)
      requires dst == Prefix(path, Left(input)) && src == Prefix(root + path, Right(input))
      modifies this`lines
      ensures lines ==
        old(lines) + AssignedFor(parser, LeavesOf(parser, rank, st.vars, path + [name], bound), root, input)
      decreases bound, 2
    {
      var dstCopy := dst + name + [Left(input)];
      var srcCopy := src + name + [Right(input)];
      InnerPrefix([], path, name, Left(input));
      InnerPrefix(root, path, name, Right(input));
      AssignEach(st.vars, dstCopy, srcCopy, input, rank, root, path + [name], bound);
      FromEnds(parser, rank, st.vars, path + [name], bound, root, input);
    }

    /** The loop over a struct's members. */
    method AssignEach(vars: seq<Var>, dst: string, src: string, input: bool, ghost rank: string -> nat,
                      ghost root: seq<string>, ghost path: seq<string>, ghost bound: nat)
      requires Acyclic(parser.structs, rank) && AllBelow(parser.structs, rank, vars, bound)
      requires dst == Prefix(path, Left(input)) && src == Prefix(root + path, Right(input))
      modifies this`lines
      ensures lines == old(lines) + AssignedFrom(parser, rank, vars, 0, path, bound, root, input)
      decreases bound, 1
    {
      ghost var all := lines + AssignedFrom(parser, rank, vars, 0, path, bound, root, input);
      for i := 0 to |vars|
        invariant lines + AssignedFrom(parser, rank, vars, i, path, bound, root, input) == all
      {
        AssignedStep(parser, rank, vars, i, path, bound, root, input, lines);
        WriteMainStorageAssign(vars[i], dst, src, input, rank, root, path);
      }
      FromEnds(parser, rank, vars, path, bound, root, input);
    }

    method WriteMainInterfaceAssign(v: Var, src: string)
      modifies this`lines
      ensures lines == old(lines) +
        if parser.stage == Vertex && v.mapping == POSITION then [AssignPosition(src + v.name)] else []
    {
      if parser.stage == Vertex && v.mapping == POSITION {
        lines := lines + [AssignPosition(src + v.name)];
      }
    }

    /** `gl_write_inputs` declares all parameters of `main`. */
    method WriteInputs(params: seq<Var>, ghost rank: string -> nat, ghost bound: nat)
      requires Acyclic(parser.structs, rank) && AllBelow(parser.structs, rank, params, bound)
      modifies this`declarations, this`attribs
      ensures var added := DeclaredFor(parser, LeavesOf(parser, rank, params, [], bound), ["inputval"], true);
        declarations == old(declarations) + added && attribs == old(attribs) + added
    {
      ghost var all := DeclaredFrom(parser, rank, params, 0, [], bound, ["inputval"], true);
      FromEnds(parser, rank, params, [], bound, ["inputval"], true);
      assert ["inputval"] + [] == ["inputval"];
      InputPrefix();
      for i := 0 to |params|
        invariant declarations + DeclaredFrom(parser, rank, params, i, [], bound, ["inputval"], true)
               == old(declarations) + all
        invariant attribs + DeclaredFrom(parser, rank, params, i, [], bound, ["inputval"], true) == old(attribs) + all
      {
        DeclaredStep(parser, rank, params, i, [], bound, ["inputval"], true, declarations);
        DeclaredStep(parser, rank, params, i, [], bound, ["inputval"], true, attribs);
        WriteStorageVar(params[i], true, "inputval_", rank, ["inputval"], []);
      }
    }

    /** `gl_write_outputs` declares what `main` returns. */
    method WriteOutputs(returnType: string, mapping: Option<string>, ghost rank: string -> nat)
      requires Acyclic(parser.structs, rank)
      modifies this`declarations, this`attribs
      ensures var added := DeclaredFor(parser, Leaves(parser, rank, Output(returnType, mapping), []), [], false);
        declarations == old(declarations) + added && attribs == old(attribs) + added
    {
      WriteStorageVar(Output(returnType, mapping), false, "", rank, [], []);
    }

    /** `gl_write_main_storage_inputs` assigns the first parameter of `main`. */
    method WriteMainStorageInputs(params: seq<Var>, ghost rank: string -> nat)
      requires Acyclic(parser.structs, rank) && params != []
      modifies this`lines
      ensures lines == old(lines) + InputLines(parser, rank, params[0])
    {
      assert ["inputval"] + [] == ["inputval"];
      InputPrefix();
      WriteMainStorageAssign(params[0], "", "inputval_", true, rank, ["inputval"], []);
    }

    /** `gl_write_main_storage_outputs`; what has a mapping of its own was assigned by the call to `main`. */
    method WriteMainStorageOutputs(returnType: string, mapping: Option<string>, ghost rank: string -> nat)
      requires Acyclic(parser.structs, rank)
      modifies this`lines
      ensures lines == old(lines) + OutputLines(parser, rank, returnType, mapping)
    {
      if mapping.None? {
        WriteMainStorageAssign(Output(returnType, None), "", "", false, rank, [], []);
      }
    }

    /** The declarations for all that `main` takes and returns. */
    method DeclareMain(params: seq<Var>, returnType: string, mapping: Option<string>, ghost rank: string -> nat,
                       ghost bound: nat)
      requires Acyclic(parser.structs, rank) && AllBelow(parser.structs, rank, params, bound)
      requires declarations == []
      modifies this`declarations, this`attribs
      ensures declarations == MainDeclarations(parser, rank, params, returnType, mapping, bound)
    {
      ghost var ins := DeclaredFor(parser, LeavesOf(parser, rank, params, [], bound), ["inputval"], true);
      WriteInputs(params, rank, bound);
      NothingBefore(ins);
      WriteOutputs(returnType, mapping, rank);
    }

    /** The lines before and behind the call of the shader's own `main`, at position `call`. */
    method AssignMain(params: seq<Var>, returnType: string, mapping: Option<string>, ghost rank: string -> nat)
      returns (call: nat)
      requires Acyclic(parser.structs, rank) && params != []
      requires lines == []
      modifies this`lines
      ensures call <= |lines|
      ensures lines[..call] == InputLines(parser, rank, params[0])
      ensures lines[call..] == OutputLines(parser, rank, returnType, mapping)
    {
      WriteMainStorageInputs(params, rank);
      call := |lines|;
      WriteMainStorageOutputs(returnType, mapping, rank);
    }

    /** The names read before the call are those of the input declarations if and only if the later parameters have
        built-in leaves alone; the names written behind it are those of the output declarations. */
    method WriteMain(params: seq<Var>, returnType: string, mapping: Option<string>, ghost rank: string -> nat,
                     ghost bound: nat) returns (call: nat)
      requires Acyclic(parser.structs, rank) && AllBelow(parser.structs, rank, params, bound) && params != []
      requires mapping.None? ==> GetStruct(parser.structs, returnType).Some?
      requires declarations == [] && lines == []
      modifies this`declarations, this`attribs, this`lines
      ensures call <= |lines|
      ensures NamesOf(declarations, true) == Sources(lines[..call])
        <==> AllBuiltIn(parser, LeavesOf(parser, rank, params[1..], [], bound), true)
      ensures mapping.None? ==> NamesOf(declarations, false) == Targets(lines[call..])
      ensures mapping.Some? ==> lines[call..] == []
      ensures mapping.Some? && GetStruct(parser.structs, returnType).None? ==>
        (NamesOf(declarations, false) == ["outputval"] <==> !(parser.stage == Vertex && mapping.value == POSITION))
    {
      DeclareMain(params, returnType, mapping, rank, bound);
      call := AssignMain(params, returnType, mapping, rank);
      MainAgrees(parser, rank, params, returnType, mapping, bound);
    }
  }

  lemma NothingBefore(ds: seq<Declaration>)
    ensures [] + ds == ds
  {
  }

  ghost function MainDeclarations(p: Parser, rank: string -> nat, params: seq<Var>, returnType: string,
                                  mapping: Option<string>, bound: nat): seq<Declaration>
    requires Acyclic(p.structs, rank) && AllBelow(p.structs, rank, params, bound)
  {
    DeclaredFor(p, LeavesOf(p, rank, params, [], bound), ["inputval"], true)
    + DeclaredFor(p, Leaves(p, rank, Output(returnType, mapping), []), [], false)
  }

  ghost function InputLines(p: Parser, rank: string -> nat, param: Var): seq<Assignment>
    requires Acyclic(p.structs, rank)
  {
    AssignedFor(p, Leaves(p, rank, param, []), ["inputval"], true)
  }

  ghost function OutputLines(p: Parser, rank: string -> nat, returnType: string, mapping: Option<string>)
    : seq<Assignment>
    requires Acyclic(p.structs, rank)
  {
    if mapping.None? then AssignedFor(p, Leaves(p, rank, Output(returnType, None), []), [], false) else []
  }

  lemma MainAgrees(p: Parser, rank: string -> nat, params: seq<Var>, returnType: string, mapping: Option<string>,
                   bound: nat)
    requires Acyclic(p.structs, rank) && AllBelow(p.structs, rank, params, bound) && params != []
    ensures NamesOf(MainDeclarations(p, rank, params, returnType, mapping, bound), true)
         == Sources(InputLines(p, rank, params[0]))
      <==> AllBuiltIn(p, LeavesOf(p, rank, params[1..], [], bound), true)
    ensures mapping.None? ==>
      NamesOf(MainDeclarations(p, rank, params, returnType, mapping, bound), false)
      == Targets(OutputLines(p, rank, returnType, mapping))
    ensures mapping.Some? && GetStruct(p.structs, returnType).None? ==>
      (NamesOf(MainDeclarations(p, rank, params, returnType, mapping, bound), false) == ["outputval"]
       <==> !(p.stage == Vertex && mapping.value == POSITION))
  {
    BothDirections(p, LeavesOf(p, rank, params, [], bound), ["inputval"],
                   Leaves(p, rank, Output(returnType, mapping), []));
    MainInputsAgree(p, rank, params, bound);
    if mapping.None? {
      MainOutputsAgree(p, rank, returnType);
    } else if GetStruct(p.structs, returnType).None? {
      LeafReturnDeclared(p, rank, returnType, mapping.value);
    }
  }

  /** The names declared for input, or for output. */
  function NamesOf(ds: seq<Declaration>, input: bool): seq<string>
    decreases |ds|
  {
    if ds == [] then []
    else (if ds[0].input == input then [ds[0].name] else []) + NamesOf(ds[1..], input)
  }

  lemma {:induction false} NamesOfAppend(a: seq<Declaration>, b: seq<Declaration>, input: bool)
    ensures NamesOf(a + b, input) == NamesOf(a, input) + NamesOf(b, input)
    decreases |a|
  {
    if a == [] {
      assert [] + b == b;
    } else {
      assert (a + b)[1..] == a[1..] + b;
      NamesOfAppend(a[1..], b, input);
      ThreeNames(if a[0].input == input then [a[0].name] else [], NamesOf(a[1..], input), NamesOf(b, input));
    }
  }

  lemma ThreeNames(a: seq<string>, b: seq<string>, c: seq<string>)
    ensures a + (b + c) == (a + b) + c
  {
  }

  lemma {:induction false} OneDirection(p: Parser, leaves: seq<Leaf>, root: seq<string>, input: bool)
    ensures NamesOf(DeclaredFor(p, leaves, root, input), input) == Names(DeclaredFor(p, leaves, root, input))
    ensures NamesOf(DeclaredFor(p, leaves, root, input), !input) == []
    decreases |leaves|
  {
    if leaves == [] {
    } else {
      OneDirection(p, leaves[1..], root, input);
      var l, rest := leaves[0], DeclaredFor(p, leaves[1..], root, input);
      var d := Declaration(input, l.v.kind, Prefix(root + l.path, '_') + l.v.name, l.v.mapping);
      if BuiltIn(p, l.v.mapping, input) {
        assert [] + rest == rest;
      } else {
        FirstName(d, rest);
        assert ([d] + rest)[1..] == rest;
      }
    }
  }

  lemma BothDirections(p: Parser, inputs: seq<Leaf>, root: seq<string>, outputs: seq<Leaf>)
    ensures var ins, outs := DeclaredFor(p, inputs, root, true), DeclaredFor(p, outputs, [], false);
      NamesOf(ins + outs, true) == Names(ins) && NamesOf(ins + outs, false) == Names(outs)
  {
    var ins, outs := DeclaredFor(p, inputs, root, true), DeclaredFor(p, outputs, [], false);
    OneDirection(p, inputs, root, true);
    OneDirection(p, outputs, [], false);
    NamesOfAppend(ins, outs, true);
    NamesOfAppend(ins, outs, false);
    assert Names(ins) + [] == Names(ins) && [] + Names(outs) == Names(outs);
  }

  lemma InputPrefix()
    ensures Prefix(["inputval"], '_') == "inputval_"
  {
    PrefixAppend([], "inputval", '_');
    assert [] + ["inputval"] == ["inputval"];
  }

  function Output(returnType: string, mapping: Option<string>): Var {
    Var("outputval", returnType, if mapping.Some? then mapping.value else "")
  }

  /** GLSL has variables of its own for all of them. */
  ghost predicate AllBuiltIn(p: Parser, leaves: seq<Leaf>, input: bool) {
    forall k :: 0 <= k < |leaves| ==> BuiltIn(p, leaves[k].v.mapping, input)
  }

  lemma {:induction false} NothingDeclared(p: Parser, leaves: seq<Leaf>, root: seq<string>, input: bool)
    ensures DeclaredFor(p, leaves, root, input) == [] <==> AllBuiltIn(p, leaves, input)
    decreases |leaves|
  {
    if leaves == [] {
    } else {
      NothingDeclared(p, leaves[1..], root, input);
      assert forall k :: 1 <= k < |leaves| ==> leaves[k] == leaves[1..][k - 1];
      assert AllBuiltIn(p, leaves, input) ==> AllBuiltIn(p, leaves[1..], input);
    }
  }

  /** The inputs declared are the ones `main` reads if and only if every leaf of its later parameters is built in. */
  lemma MainInputsAgree(p: Parser, rank: string -> nat, params: seq<Var>, bound: nat)
    requires Acyclic(p.structs, rank) && AllBelow(p.structs, rank, params, bound) && params != []
    ensures
      Names(DeclaredFor(p, LeavesOf(p, rank, params, [], bound), ["inputval"], true))
      == Sources(AssignedFor(p, Leaves(p, rank, params[0], []), ["inputval"], true))
      <==> AllBuiltIn(p, LeavesOf(p, rank, params[1..], [], bound), true)
  {
    var first, later := Leaves(p, rank, params[0], []), LeavesOf(p, rank, params[1..], [], bound);
    var ds, es := DeclaredFor(p, first, ["inputval"], true), DeclaredFor(p, later, ["inputval"], true);
    DeclaredForAppend(p, first, later, ["inputval"], true);
    NothingDeclared(p, later, ["inputval"], true);
    InputsAgree(p, first, ["inputval"]);
    NamesAppend(ds, es);
    NamesLength(es);
    if es == [] {
      assert Names(ds) + [] == Names(ds);
    } else {
      assert |Names(ds) + Names(es)| > |Names(ds)|;
    }
  }

  /** A pixel shader `main(float4 color : COLOR, float2 uv : TEXCOORD0)` declares two inputs and reads one. */
  lemma SecondParameterUnread(p: Parser, rank: string -> nat, color: Var, uv: Var)
    requires p == Parser([], Pixel)
    requires color == Var("color", "float4", "COLOR") && uv == Var("uv", "float2", "TEXCOORD0")
    ensures Acyclic(p.structs, rank) && AllBelow(p.structs, rank, [color, uv], 0)
    ensures Names(DeclaredFor(p, LeavesOf(p, rank, [color, uv], [], 0), ["inputval"], true))
         == ["inputval_color", "inputval_uv"]
    ensures Sources(AssignedFor(p, Leaves(p, rank, color, []), ["inputval"], true)) == ["inputval_color"]
  {
    var root := ["inputval"];
    assert root + [] == root;
    InputPrefix();
    LeavesStep(p, rank, [color, uv], 0, [], 0);
    assert [color, uv][1..] == [uv] && [uv][1..] == [];
    assert [color, uv][0..] == [color, uv];
    assert LeavesOf(p, rank, [uv], [], 0) == [Leaf([], uv)] + LeavesOf(p, rank, [], [], 0) == [Leaf([], uv)];
    var leaves := [Leaf([], color), Leaf([], uv)];
    assert LeavesOf(p, rank, [color, uv], [], 0) == leaves;
    assert leaves[1..] == [Leaf([], uv)] && [Leaf([], uv)][1..] == [] && [Leaf([], color)][1..] == [];
    assert "inputval_" + "color" == "inputval_color" && "inputval_" + "uv" == "inputval_uv";
    var dc := Declaration(true, "float4", "inputval_color", "COLOR");
    var du := Declaration(true, "float2", "inputval_uv", "TEXCOORD0");
    assert DeclaredFor(p, [Leaf([], uv)], root, true) == [du];
    assert DeclaredFor(p, leaves, root, true) == [dc] + [du];
    FirstName(du, []);
    FirstName(dc, [du]);
    assert [du] + [] == [du];
    InputsAgree(p, [Leaf([], color)], root);
    assert DeclaredFor(p, [Leaf([], color)], root, true) == [dc];
    FirstName(dc, []);
    assert [dc] + [] == [dc];
  }

  lemma {:induction false} NamesAppend(a: seq<Declaration>, b: seq<Declaration>)
    ensures Names(a + b) == Names(a) + Names(b)
    decreases |a|
  {
    if a == [] {
      assert [] + b == b;
    } else {
      assert (a + b)[1..] == a[1..] + b;
      NamesAppend(a[1..], b);
    }
  }

  lemma {:induction false} NamesLength(ds: seq<Declaration>)
    ensures |Names(ds)| == |ds|
    decreases |ds|
  {
    if ds == [] {
    } else {
      NamesLength(ds[1..]);
    }
  }

  /** The outputs declared for a returned struct are the ones `main` writes. */
  lemma MainOutputsAgree(p: Parser, rank: string -> nat, returnType: string)
    requires Acyclic(p.structs, rank)
    ensures Names(DeclaredFor(p, Leaves(p, rank, Output(returnType, None), []), [], false))
         == Targets(AssignedFor(p, Leaves(p, rank, Output(returnType, None), []), [], false))
  {
    OutputsAgree(p, Leaves(p, rank, Output(returnType, None), []));
  }

  /** A returned value with a mapping of its own is assigned as a whole; it is declared unless it is the position of a
      vertex. */
  lemma LeafReturnDeclared(p: Parser, rank: string -> nat, returnType: string, mapping: string)
    requires Acyclic(p.structs, rank) && GetStruct(p.structs, returnType).None?
    ensures Names(DeclaredFor(p, Leaves(p, rank, Output(returnType, Some(mapping)), []), [], false)) == ["outputval"]
      <==> !(p.stage == Vertex && mapping == POSITION)
  {
    var v := Output(returnType, Some(mapping));
    var leaves := [Leaf([], v)];
    var d := Declaration(false, returnType, "outputval", mapping);
    assert Leaves(p, rank, v, []) == leaves && leaves[1..] == [] && DeclaredFor(p, [], [], false) == [];
    RootOutput();
    assert DeclaredFor(p, leaves, [], false) == if BuiltIn(p, mapping, false) then [] else [d];
    FirstName(d, []);
    assert [d] + [] == [d];
  }

  lemma RootOutput()
    ensures var root: seq<string> := []; Prefix(root + [], '_') + "outputval" == "outputval"
  {
    var root: seq<string> := [];
    assert root + [] == root;
  }
}
