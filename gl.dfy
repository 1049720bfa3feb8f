/**
 * The graphics side of the shader engine as the engine sees it: 4x4 matrices
 * with the tolerance comparison of TestDynamic/WebContent/goo/renderer/Shader.js,
 * a WebGL context reduced to the log of the calls issued on it, and the
 * renderer's shared shader record (the program in use and one uniform record
 * per program).
 */
module Gl {
  import opened Wrappers
  import opened Sequences

  /** A 4x4 matrix as its 16 elements. */
  type Mat4 = m: seq<real> | |m| == 16 witness seq(16, _ => 0.0)

  /** Two matrix elements closer than this compare equal. */
  const Tolerance: real := 0.00000001

  function Abs(x: real): (r: real)
    ensures r >= 0.0 && (r == x || r == -x)
  {
    if x < 0.0 then -x else x
  }

  /** Every pair of corresponding elements differs by at most `Tolerance`. */
  predicate WithinTolerance(e1: Mat4, e2: Mat4) {
    forall i | 0 <= i < 16 :: Abs(e1[i] - e2[i]) <= Tolerance
  }

  /**
   * `compareMatrices`: walks the 16 element pairs and stops at the first pair
   * that differs by more than the tolerance.
   */
  method CompareMatrices(e1: Mat4, e2: Mat4) returns (equals: bool)
    ensures equals <==> WithinTolerance(e1, e2)
  {
    equals := true;
    var i := 0;
    while i < 16
      invariant 0 <= i <= 16
      invariant equals <==> forall j | 0 <= j < i :: Abs(e1[j] - e2[j]) <= Tolerance
      decreases 16 - i
    {
      if Abs(e1[i] - e2[i]) > Tolerance {
        equals := false;
        i := i + 1;
        break;
      }
      i := i + 1;
    }
  }

  /** The tolerance comparison accepts a matrix against itself. */
  lemma WithinToleranceReflexive(m: Mat4)
    ensures WithinTolerance(m, m)
  {
    assert Abs(0.0) == 0.0;
  }

  /** The tolerance comparison does not depend on the order of its arguments. */
  lemma WithinToleranceSymmetric(a: Mat4, b: Mat4)
    ensures WithinTolerance(a, b) <==> WithinTolerance(b, a)
  {
  }

  /** The comparison is not transitive: two steps within the tolerance can add up to more. */
  lemma WithinToleranceNotTransitive()
    ensures var a, b, c := seq(16, _ => 0.0), seq(16, _ => Tolerance), seq(16, _ => 2.0 * Tolerance);
      WithinTolerance(a, b) && WithinTolerance(b, c) && !WithinTolerance(a, c)
  {
    var a: Mat4, b: Mat4, c: Mat4 := seq(16, _ => 0.0), seq(16, _ => Tolerance), seq(16, _ => 2.0 * Tolerance);
    assert Abs(a[0] - c[0]) > Tolerance;
  }

  type ProgramId = nat

  /** A uniform location as the context hands it out. */
  type Location = int

  datatype Stage = Vertex | Fragment

  /** The calls the engine issues on the WebGL context, in the order it issues them. */
  datatype GlCall =
    | CompileShader(stage: Stage, source: string)  // createShader, shaderSource, compileShader
    | CreateProgram(program: ProgramId)
    | AttachShader(program: ProgramId, stage: Stage)
    | LinkProgram(program: ProgramId)
    | UseProgram(program: ProgramId)
    | BindVertexAttribute(index: int, count: int, componentType: int, normalized: bool, stride: int, offset: int)
    | UniformMatrix4fv(location: Location, transpose: bool, matrix: Mat4)
    | Uniform1i(location: Location, unit: int)
    | Uniform1f(location: Location, scalar: real)
    | Uniform3f(location: Location, x: real, y: real, z: real)
    | Uniform4f(location: Location, r: real, g: real, b: real, a: real)
    | CustomCallback(id: nat)                     // a callback the engine cannot see into

  /** The calls that build a program: both stages compiled, a new program, both attached, linked. */
  function CompileCalls(vertexSource: string, fragmentSource: string, p: ProgramId): seq<GlCall> {
    [CompileShader(Vertex, vertexSource), CompileShader(Fragment, fragmentSource), GlCall.CreateProgram(p),
     AttachShader(p, Vertex), AttachShader(p, Fragment), LinkProgram(p)]
  }

  /** The programs a sequence of calls makes current, in the order it does so. */
  function ProgramSwitches(calls: seq<GlCall>): seq<ProgramId>
    decreases |calls|
  {
    if calls == [] then []
    else
      var last := calls[|calls| - 1];
      ProgramSwitches(calls[..|calls| - 1]) + (if last.UseProgram? then [last.program] else [])
  }

  /** The switches of two call sequences issued one after the other are those of the first, then those of the second. */
  lemma {:induction false} ProgramSwitchesAppend(a: seq<GlCall>, b: seq<GlCall>)
    ensures ProgramSwitches(a + b) == ProgramSwitches(a) + ProgramSwitches(b)
    decreases |b|
  {
    if b == [] {
      assert a + b == a;
    } else {
      var init := b[..|b| - 1];
      assert (a + b)[..|a + b| - 1] == a + init;
      ProgramSwitchesAppend(a, init);
    }
  }

  /** No call of the sequence makes a program current. */
  predicate NoSwitch(calls: seq<GlCall>) {
    forall j | 0 <= j < |calls| :: !calls[j].UseProgram?
  }

  lemma {:induction false} NoSwitchSwitchesNothing(calls: seq<GlCall>)
    requires NoSwitch(calls)
    ensures ProgramSwitches(calls) == []
    decreases |calls|
  {
    if calls != [] {
      NoSwitchSwitchesNothing(calls[..|calls| - 1]);
    }
  }

  /**
   * The WebGL context: the log of the calls issued on it, a counter that hands
   * out fresh program ids, and the location queries as fixed functions of the
   * program and the variable name.
   */
  class Context {
    var log: seq<GlCall>
    var nextProgram: ProgramId
    const attribLocation: (ProgramId, string) -> int
    const uniformLocation: (ProgramId, string) -> Location

    constructor (attribLocation: (ProgramId, string) -> int, uniformLocation: (ProgramId, string) -> Location)
      ensures log == [] && nextProgram == 0
      ensures this.attribLocation == attribLocation && this.uniformLocation == uniformLocation
    {
      log := [];
      nextProgram := 0;
      this.attribLocation := attribLocation;
      this.uniformLocation := uniformLocation;
    }

    method Issue(call: GlCall)
      modifies this`log
      ensures log == old(log) + [call]
    {
      log := log + [call];
    }

    /** `createProgram`: a program id never handed out before. */
    method CreateProgram() returns (p: ProgramId)
      modifies this
      ensures p == old(nextProgram) && nextProgram == p + 1
      ensures log == old(log) + [GlCall.CreateProgram(p)]
    {
      p := nextProgram;
      nextProgram := nextProgram + 1;
      log := log + [GlCall.CreateProgram(p)];
    }

    /**
     * The first half of `compile`: `_getShader` for both stages, then a new
     * program with both shaders attached and linked.
     */
    method BuildProgram(vertexSource: string, fragmentSource: string) returns (p: ProgramId)
      modifies this
      ensures p == old(nextProgram) && nextProgram == p + 1
      ensures log == old(log) + CompileCalls(vertexSource, fragmentSource, p)
    {
      ghost var before := log;
      Issue(CompileShader(Vertex, vertexSource));
      Issue(CompileShader(Fragment, fragmentSource));
      p := CreateProgram();
      Issue(AttachShader(p, Vertex));
      Issue(AttachShader(p, Fragment));
      Issue(LinkProgram(p));
      AppendSix(before, CompileShader(Vertex, vertexSource), CompileShader(Fragment, fragmentSource), GlCall.CreateProgram(p),
                AttachShader(p, Vertex), AttachShader(p, Fragment), LinkProgram(p));
    }
  }

  /**
   * The cache table a program's uniforms share (a `Hashtable` keyed by the
   * uniform's call object); keyed here by the uniform's binding name, which
   * names one call object per program.
   */
  class UniformRecord {
    var values: map<string, Mat4>

    constructor ()
      ensures values == map[]
    {
      values := map[];
    }
  }

  /** `renderer.shaderRecord`: shared by every shader drawn with one renderer. */
  class ShaderRecord {
    var usedProgram: Option<ProgramId>
    var uniformRecords: map<ProgramId, UniformRecord>

    constructor ()
      ensures usedProgram == None && uniformRecords == map[]
    {
      usedProgram := None;
      uniformRecords := map[];
    }
  }

  class Renderer {
    const context: Context
    const shaderRecord: ShaderRecord

    constructor (context: Context, shaderRecord: ShaderRecord)
      ensures this.context == context && this.shaderRecord == shaderRecord
    {
      this.context := context;
      this.shaderRecord := shaderRecord;
    }

    /**
     * Programs in use or owning a record were all handed out by the context,
     * and no two programs share a uniform record.
     */
    predicate Valid()
      reads this, context, shaderRecord
    {
      (forall q | q in shaderRecord.uniformRecords :: q < context.nextProgram)
      && (shaderRecord.usedProgram.Some? ==> shaderRecord.usedProgram.value < context.nextProgram)
      && (forall q1, q2 | q1 in shaderRecord.uniformRecords && q2 in shaderRecord.uniformRecords && q1 != q2 ::
            shaderRecord.uniformRecords[q1] != shaderRecord.uniformRecords[q2])
    }

    /** The cached matrices of program `p`; a program without a record has none. */
    function CacheOf(p: ProgramId): (cache: map<string, Mat4>)
      reads shaderRecord, shaderRecord.uniformRecords.Values
      ensures p !in shaderRecord.uniformRecords ==> cache == map[]
    {
      if p in shaderRecord.uniformRecords then shaderRecord.uniformRecords[p].values else map[]
    }

    /** `renderer.bindVertexAttribute`: issues the attribute binding on the context. */
    method BindVertexAttribute(index: int, count: int, componentType: int, normalized: bool, stride: int, offset: int)
      modifies context`log
      ensures context.log == old(context.log) + [GlCall.BindVertexAttribute(index, count, componentType, normalized, stride, offset)]
    {
      context.Issue(GlCall.BindVertexAttribute(index, count, componentType, normalized, stride, offset));
    }
  }

  /**
   * `ShaderCall`: the handle through which a callback writes one uniform; it
   * holds the context, the program's shared uniform record and the location.
   */
  datatype ShaderCall = ShaderCall(context: Context, currentRecord: UniformRecord, location: Location)
}
