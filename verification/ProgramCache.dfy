/**
 The cache of linked shader programs: a list threaded through `next` and `prev_next`, searched by the pair of shaders
 in use (libobs-opengl/gl-shader.c, libobs-opengl/gl-subsystem.c). Linking succeeds or fails as an input says.
 */
module ProgramCache {

  datatype Kind = Vertex | Pixel

  datatype Shader = Shader(kind: Kind, id: nat)

  /** The shaders a program is linked from. */
  datatype Pair = Pair(vertex: Shader, pixel: Shader)

  predicate Uses(pair: Pair, shader: Shader) {
    (shader.kind == Vertex && pair.vertex == shader) || (shader.kind == Pixel && pair.pixel == shader)
  }

  // ---------- The cache over whole runs ----------

  /** What happens to the cache: a draw with two shaders, or the end of a shader. */
  datatype Op = Draw(pair: Pair, links: bool) | DestroyShader(shader: Shader)

  function Without(pairs: seq<Pair>, shader: Shader): seq<Pair> {
    if pairs == [] then []
    else if Uses(pairs[0], shader) then Without(pairs[1..], shader)
    else [pairs[0]] + Without(pairs[1..], shader)
  }

  function Apply(pairs: seq<Pair>, op: Op): seq<Pair> {
    match op
    case Draw(pair, links) => if pair in pairs || !links then pairs else [pair] + pairs
    case DestroyShader(shader) => Without(pairs, shader)
  }

  function Cached(ops: seq<Op>): seq<Pair>
    decreases |ops|
  {
    if ops == [] then [] else Apply(Cached(ops[..|ops| - 1]), ops[|ops| - 1])
  }

  ghost predicate NoDuplicates(pairs: seq<Pair>) {
    forall i, j :: 0 <= i < j < |pairs| ==> pairs[i] != pairs[j]
  }

  lemma {:induction false} WithoutIsFilter(pairs: seq<Pair>, shader: Shader)
    ensures forall p :: p in Without(pairs, shader) <==> p in pairs && !Uses(p, shader)
    ensures NoDuplicates(pairs) ==> NoDuplicates(Without(pairs, shader))
  {
    if pairs == [] {
    } else {
      WithoutIsFilter(pairs[1..], shader);
      assert forall p :: p in pairs <==> p == pairs[0] || p in pairs[1..];
      if NoDuplicates(pairs) {
        assert NoDuplicates(pairs[1..]);
        assert pairs[0] !in pairs[1..];
      }
    }
  }

  /** A pair was linked by a draw after which neither of its shaders was destroyed. */
  ghost predicate LinkedSince(ops: seq<Op>, pair: Pair) {
    exists i :: 0 <= i < |ops| && ops[i] == Draw(pair, true) && SurvivesFrom(ops, i + 1, pair)
  }

  ghost predicate SurvivesFrom(ops: seq<Op>, from: nat, pair: Pair) {
    forall j :: from <= j < |ops| ==> !(ops[j].DestroyShader? && Uses(pair, ops[j].shader))
  }

  /**
   The cache agrees with direct lookup over any run: it holds a program for a pair exactly if a draw with that pair
   could link one and neither shader has been destroyed since; and it never holds two for one pair.
   */
  lemma {:induction false} CacheIsDirectLookup(ops: seq<Op>)
    ensures NoDuplicates(Cached(ops))
    ensures forall pair :: pair in Cached(ops) <==> LinkedSince(ops, pair)
    decreases |ops|
  {
    if ops == [] {
    } else {
      var n := |ops| - 1;
      CacheIsDirectLookup(ops[..n]);
      forall pair
        ensures pair in Cached(ops) <==> LinkedSince(ops, pair)
      {
        OneMoreOp(ops, pair);
      }
      match ops[n]
      case DestroyShader(shader) => WithoutIsFilter(Cached(ops[..n]), shader);
      case Draw(_, _) =>
    }
  }

  lemma OneMoreOp(ops: seq<Op>, pair: Pair)
    requires ops != []
    requires pair in Cached(ops[..|ops| - 1]) <==> LinkedSince(ops[..|ops| - 1], pair)
    ensures pair in Cached(ops) <==> LinkedSince(ops, pair)
  {
    var n := |ops| - 1;
    var before := ops[..n];
    LinkedSinceStep(ops, pair);
    match ops[n]
    case DestroyShader(shader) => WithoutIsFilter(Cached(before), shader);
    case Draw(_, _) =>
  }

  lemma LinkedSinceStep(ops: seq<Op>, pair: Pair)
    requires ops != []
    ensures var last := ops[|ops| - 1];
      LinkedSince(ops, pair) <==>
        last == Draw(pair, true)
        || (LinkedSince(ops[..|ops| - 1], pair) && !(last.DestroyShader? && Uses(pair, last.shader)))
  {
    var n := |ops| - 1;
    var before := ops[..n];
    assert forall j :: 0 <= j < n ==> before[j] == ops[j];
    if LinkedSince(ops, pair) {
      var i :| 0 <= i < |ops| && ops[i] == Draw(pair, true) && SurvivesFrom(ops, i + 1, pair);
      if i < n {
        assert before[i] == Draw(pair, true) && SurvivesFrom(before, i + 1, pair);
      }
    }
    if ops[n] == Draw(pair, true) {
      assert SurvivesFrom(ops, n + 1, pair);
    }
    if LinkedSince(before, pair) {
      var i :| 0 <= i < |before| && before[i] == Draw(pair, true) && SurvivesFrom(before, i + 1, pair);
      if !(ops[n].DestroyShader? && Uses(pair, ops[n].shader)) {
        assert ops[i] == Draw(pair, true) && SurvivesFrom(ops, i + 1, pair);
      }
    }
  }

  /** A pair as draws have it: a vertex and a pixel shader. */
  predicate Proper(pair: Pair) { pair.vertex.kind == Vertex && pair.pixel.kind == Pixel }

  /** The end of either of its two shaders is the end of such a pair's program. */
  lemma EitherShaderEnds(pair: Pair, shader: Shader)
    requires Proper(pair)
    ensures Uses(pair, shader) <==> shader == pair.vertex || shader == pair.pixel
  {
  }

  /** A draw could link the pair, and neither of its shaders was destroyed afterwards. */
  ghost predicate BothAliveSince(ops: seq<Op>, pair: Pair) {
    exists i :: 0 <= i < |ops| && ops[i] == Draw(pair, true) &&
      forall j :: i < j < |ops| ==> ops[j] != DestroyShader(pair.vertex) && ops[j] != DestroyShader(pair.pixel)
  }

  lemma ProperPairsCached(ops: seq<Op>, pair: Pair)
    requires Proper(pair)
    ensures pair in Cached(ops) <==> BothAliveSince(ops, pair)
  {
    CacheIsDirectLookup(ops);
    forall j | 0 <= j < |ops| && ops[j].DestroyShader?
      ensures Uses(pair, ops[j].shader) <==> ops[j] == DestroyShader(pair.vertex) || ops[j] == DestroyShader(pair.pixel)
    {
      EitherShaderEnds(pair, ops[j].shader);
    }
    if LinkedSince(ops, pair) {
      var i :| 0 <= i < |ops| && ops[i] == Draw(pair, true) && SurvivesFrom(ops, i + 1, pair);
      assert forall j :: i < j < |ops| ==> ops[j] != DestroyShader(pair.vertex) && ops[j] != DestroyShader(pair.pixel);
    }
    if BothAliveSince(ops, pair) {
      var i :| 0 <= i < |ops| && ops[i] == Draw(pair, true) &&
        forall j :: i < j < |ops| ==> ops[j] != DestroyShader(pair.vertex) && ops[j] != DestroyShader(pair.pixel);
      assert SurvivesFrom(ops, i + 1, pair);
    }
  }

  // ---------- The list in memory ----------

  /** Where a program's `prev_next` points: nowhere yet, at the device's head, or at another program's `next`. */
  datatype Link = Unlinked | Head | NextOf(program: Program)

  /** `struct gs_program` */
  class Program {
    const pair: Pair
    var next: Program?
    var prevNext: Link

    constructor (pair: Pair)
      ensures this.pair == pair && next == null && prevNext == Unlinked
    {
      this.pair := pair;
      next, prevNext := null, Unlinked;
    }
  }

  /** The program at position `i`, or null behind the end. */
  function At(programs: seq<Program>, i: nat): Program? {
    if i < |programs| then programs[i] else null
  }

  function PairsOf(programs: seq<Program>): (r: seq<Pair>)
    ensures |r| == |programs|
  {
    seq(|programs|, i requires 0 <= i < |programs| => programs[i].pair)
  }

  /** What the `prev_next` of the program at position `i` has to be. */
  function LinkAt(programs: seq<Program>, i: nat): Link
    requires i <= |programs|
  {
    if i == 0 then Head else NextOf(programs[i - 1])
  }

  ghost predicate Distinct(programs: seq<Program>) {
    forall i, j :: 0 <= i < j < |programs| ==> programs[i] != programs[j]
  }

  /** `next` and `prev_next` thread exactly these programs, each once. */
  ghost predicate Threaded(programs: seq<Program>)
    reads programs
  {
    && Distinct(programs)
    && (forall i {:trigger programs[i].next} :: 0 <= i < |programs| ==> programs[i].next == At(programs, i + 1))
    && (forall i {:trigger programs[i].prevNext} :: 0 <= i < |programs| ==> programs[i].prevNext == LinkAt(programs, i))
  }

  function Removed(programs: seq<Program>, i: nat): (r: seq<Program>)
    requires i < |programs|
    ensures |r| == |programs| - 1
    ensures forall j :: 0 <= j < |r| ==> r[j] == if j < i then programs[j] else programs[j + 1]
  {
    programs[..i] + programs[i + 1..]
  }

  /** The pointers after the program at position `i` was taken out. */
  ghost predicate TakenOut(programs: seq<Program>, i: nat)
    requires i < |programs|
    reads programs
  {
    && (forall j {:trigger programs[j].next} :: 0 <= j < |programs| && j != i ==>
          programs[j].next == if j + 1 == i then At(programs, i + 1) else At(programs, j + 1))
    && (forall j {:trigger programs[j].prevNext} :: 0 <= j < |programs| && j != i ==>
          programs[j].prevNext == if j == i + 1 then LinkAt(programs, i) else LinkAt(programs, j))
  }

  lemma RemovedIsThreaded(programs: seq<Program>, i: nat)
    requires i < |programs| && Distinct(programs)
    requires TakenOut(programs, i)
    ensures Threaded(Removed(programs, i))
  {
    var rest := Removed(programs, i);
    forall j | 0 <= j < |rest|
      ensures rest[j].next == At(rest, j + 1) && rest[j].prevNext == LinkAt(rest, j)
    {
      var k := if j < i then j else j + 1;
      assert rest[j] == programs[k];
    }
  }

  /** The part of `struct gs_device` that concerns programs. */
  class Device {
    var firstProgram: Program?
    var curProgram: Program?

    /** The programs in the list, and what has happened to the cache so far. */
    ghost var programs: seq<Program>
    ghost var history: seq<Op>

    ghost predicate Linked()
      reads this, programs
    {
      firstProgram == At(programs, 0) && Threaded(programs) && (curProgram == null || curProgram in programs)
    }

    ghost predicate Valid()
      reads this, programs
    {
      Linked() && PairsOf(programs) == Cached(history)
    }

    constructor ()
      ensures Valid() && programs == [] && history == [] && curProgram == null
    {
      firstProgram, curProgram, programs, history := null, null, [], [];
    }

    /** What holds of the list after any run. */
    lemma CacheAgrees()
      requires Valid()
      ensures NoDuplicates(PairsOf(programs))
      ensures forall pair :: pair in PairsOf(programs) <==> LinkedSince(history, pair)
    {
      CacheIsDirectLookup(history);
    }

    /** `find_program` */
    method FindProgram(pair: Pair) returns (program: Program?)
      requires Linked()
      ensures program == null <==> pair !in PairsOf(programs)
      ensures program != null ==> program in programs && program.pair == pair
    {
      program := firstProgram;
      ghost var i := 0;
      while program != null
        invariant 0 <= i <= |programs|
        invariant program == At(programs, i)
        invariant forall j :: 0 <= j < i ==> programs[j].pair != pair
        decreases |programs| - i
      {
        if program.pair == pair {
          assert PairsOf(programs)[i] == pair;
          return;
        }
        program := program.next;
        i := i + 1;
      }
    }

    /** The pointer updates that take a program out of the list. */
    method Unlink(program: Program, ghost i: nat)
      requires Threaded(programs) && firstProgram == At(programs, 0)
      requires i < |programs| && programs[i] == program
      modifies this`firstProgram, programs
      ensures firstProgram == At(Removed(programs, i), 0)
      ensures TakenOut(programs, i)
    {
      assert program.prevNext == LinkAt(programs, i) && program.next == At(programs, i + 1);
      if program.next != null {
        program.next.prevNext := program.prevNext;
      }
      match program.prevNext {
        case Unlinked =>
        case Head => firstProgram := program.next;
        case NextOf(previous) => previous.next := program.next;
      }
    }

    /** `gs_program_destroy`: the program leaves the list, and is no longer the current one. */
    method DestroyProgram(program: Program, ghost i: nat)
      requires Linked()
      requires i < |programs| && programs[i] == program
      modifies this`firstProgram, this`curProgram, this`programs, programs
      ensures Linked()
      ensures programs == Removed(old(programs), i)
      ensures curProgram == if old(curProgram) == program then null else old(curProgram)
    {
      if curProgram == program {
        curProgram := null;
      }
      Unlink(program, i);
      RemovedIsThreaded(programs, i);
      StillThere(programs, i, curProgram);
      programs := Removed(programs, i);
    }

    /** One turn of the loop in `remove_program_references`. */
    method RemoveIfUsing(program: Program, shader: Shader, ghost k: nat) returns (destroy: bool)
      requires Linked()
      requires k < |programs| && programs[k] == program
      modifies this`firstProgram, this`curProgram, this`programs, programs
      ensures Linked()
      ensures destroy == Uses(program.pair, shader)
      ensures programs == if destroy then Removed(old(programs), k) else old(programs)
      ensures curProgram == null || curProgram == old(curProgram)
    {
      destroy := false;
      if shader.kind == Vertex && program.pair.vertex == shader {
        destroy := true;
      } else if shader.kind == Pixel && program.pair.pixel == shader {
        destroy := true;
      }
      if destroy {
        DestroyProgram(program, k);
      }
    }

    /** One turn of the loop in `remove_program_references`; `k` programs are behind. */
    method RemovalTurn(program: Program, shader: Shader, ghost k: nat) returns (next: Program?, ghost behind: nat)
      requires Linked()
      requires k < |programs| && programs[k] == program
      modifies this`firstProgram, this`curProgram, this`programs, programs
      ensures Linked()
      ensures behind <= |programs| && next == At(programs, behind) && |programs| - behind < old(|programs|) - k
      ensures PairsOf(programs)[..behind] + Without(PairsOf(programs)[behind..], shader)
           == old(PairsOf(programs)[..k] + Without(PairsOf(programs)[k..], shader))
      ensures forall i :: 0 <= i < |programs| ==> programs[i] in old(programs)
      ensures curProgram == null || curProgram == old(curProgram)
    {
      next := program.next;
      ghost var before := PairsOf(programs);
      RemovedPairs(programs, k);
      var destroyed := RemoveIfUsing(program, shader, k);
      WithoutStep(before, PairsOf(programs), k, shader);
      behind := if destroyed then k else k + 1;
    }

    /** `remove_program_references`: every program linked from the shader is destroyed, no other. */
    method RemoveProgramReferences(shader: Shader)
      requires Linked()
      modifies this`firstProgram, this`curProgram, this`programs, programs
      ensures Linked()
      ensures PairsOf(programs) == Without(old(PairsOf(programs)), shader)
      ensures curProgram == null || curProgram == old(curProgram)
    {
      var program := firstProgram;
      ghost var k, was := 0, programs;
      ghost var all := Without(PairsOf(programs), shader);
      assert PairsOf(programs)[0..] == PairsOf(programs);
      while program != null
        invariant Linked()
        invariant 0 <= k <= |programs| && program == At(programs, k)
        invariant PairsOf(programs)[..k] + Without(PairsOf(programs)[k..], shader) == all
        invariant forall i :: 0 <= i < |programs| ==> programs[i] in was
        invariant curProgram == null || curProgram == old(curProgram)
        decreases |programs| - k
      {
        program, k := RemovalTurn(program, shader, k);
      }
      assert PairsOf(programs)[..k] + [] == PairsOf(programs);
    }

    /** `gs_program_create`: a program that links goes to the front; one that does not leaves everything as it was. */
    method CreateProgram(pair: Pair, links: bool) returns (program: Program?)
      requires Linked()
      modifies this`firstProgram, this`programs, programs
      ensures Linked()
      ensures if links
        then program != null && fresh(program) && program.pair == pair && programs == [program] + old(programs)
        else program == null && programs == old(programs)
    {
      var created := new Program(pair);
      if !links {
        return null;
      }
      created.next := firstProgram;
      created.prevNext := Head;
      firstProgram := created;
      if created.next != null {
        created.next.prevNext := NextOf(created);
      }
      FrontIsThreaded(created, programs);
      assert curProgram != null ==> curProgram in [created] + programs;
      programs := [created] + programs;
      return created;
    }

    /** The program part of `device_draw`: the one in use afterwards is the one for exactly this pair. */
    method UseProgram(pair: Pair, links: bool) returns (program: Program?)
      requires Valid()
      modifies this, programs
      ensures Valid() && history == old(history) + [Draw(pair, links)]
      ensures program == null <==> pair !in PairsOf(programs)
      ensures program != null ==> program.pair == pair && program in programs
      ensures curProgram == if program != null then program else old(curProgram)
    {
      ghost var was := PairsOf(programs);
      program := FindProgram(pair);
      if program == null {
        program := CreateProgram(pair, links);
        if links {
          assert PairsOf(programs) == [pair] + was;
          assert PairsOf(programs)[0] == pair;
        }
      }
      if program != null && program != curProgram {
        curProgram := program;
      }
      history := history + [Draw(pair, links)];
      assert history[..|history| - 1] == old(history);
    }

    /** The end of a shader: afterwards no program names it. */
    method DestroyShader(shader: Shader)
      requires Valid()
      modifies this, programs
      ensures Valid() && history == old(history) + [Op.DestroyShader(shader)]
      ensures forall pair :: pair in PairsOf(programs) && Proper(pair) ==> pair.vertex != shader && pair.pixel != shader
      ensures curProgram == null || curProgram == old(curProgram)
    {
      WithoutIsFilter(PairsOf(programs), shader);
      RemoveProgramReferences(shader);
      forall pair | pair in PairsOf(programs) && Proper(pair)
        ensures pair.vertex != shader && pair.pixel != shader
      {
        EitherShaderEnds(pair, shader);
      }
      history := history + [Op.DestroyShader(shader)];
      assert history[..|history| - 1] == old(history);
    }

    /** The loop in `device_destroy`. */
    method DestroyAll()
      requires Linked()
      modifies this`firstProgram, this`curProgram, this`programs, programs
      ensures Linked() && programs == [] && curProgram == null && firstProgram == null
    {
      ghost var was := programs;
      while firstProgram != null
        invariant Linked()
        invariant forall i :: 0 <= i < |programs| ==> programs[i] in was
        decreases |programs|
      {
        DestroyProgram(firstProgram, 0);
      }
    }
  }

  lemma FrontIsThreaded(created: Program, programs: seq<Program>)
    requires Distinct(programs) && created !in programs
    requires created.next == At(programs, 0) && created.prevNext == Head
    requires forall i {:trigger programs[i].next} :: 0 <= i < |programs| ==> programs[i].next == At(programs, i + 1)
    requires forall i {:trigger programs[i].prevNext} :: 0 <= i < |programs| ==>
      programs[i].prevNext == if i == 0 then NextOf(created) else LinkAt(programs, i)
    ensures Threaded([created] + programs)
  {
    var all := [created] + programs;
    forall j | 0 <= j < |all|
      ensures all[j].next == At(all, j + 1) && all[j].prevNext == LinkAt(all, j)
    {
      if j > 0 {
        assert all[j] == programs[j - 1];
      }
    }
  }

  lemma RemovedPairs(programs: seq<Program>, i: nat)
    requires i < |programs|
    ensures PairsOf(Removed(programs, i)) == PairsOf(programs)[..i] + PairsOf(programs)[i + 1..]
  {
  }

  /** One turn of the removal: what is behind and what is still to be looked at. */
  lemma WithoutStep(before: seq<Pair>, after: seq<Pair>, k: nat, shader: Shader)
    requires k < |before|
    requires after == if Uses(before[k], shader) then before[..k] + before[k + 1..] else before
    ensures var next := if Uses(before[k], shader) then k else k + 1;
      after[..next] + Without(after[next..], shader) == before[..k] + Without(before[k..], shader)
  {
    assert before[k..][1..] == before[k + 1..];
    if Uses(before[k], shader) {
      assert after[k..] == before[k + 1..] && after[..k] == before[..k];
    } else {
      assert before[..k + 1] == before[..k] + [before[k]];
    }
  }

  lemma StillThere(programs: seq<Program>, i: nat, p: Program?)
    requires i < |programs|
    ensures p != null && p in programs && p != programs[i] ==> p in Removed(programs, i)
  {
    if p != null && p in programs && p != programs[i] {
      var j :| 0 <= j < |programs| && programs[j] == p;
      assert Removed(programs, i)[if j < i then j else j - 1] == p;
    }
  }
}
