/**
 * `Shader` of TestDynamic/WebContent/goo/renderer/Shader.js: a vertex and a
 * fragment source, the binding tables the declaration scan fills, the
 * program and uniform call objects `compile` creates, and `apply`, which
 * prepares the shader on first use and then pushes attributes and uniforms
 * for one draw.
 */
module Shaders {
  import opened Wrappers
  import opened Gl
  import opened GlslScan
  import opened Callbacks
  import opened Bindings
  import StringUtil
  import opened Sequences

  /** `useProgram` is issued only when the shared record names another program (or none). */
  function UseCalls(used: Option<ProgramId>, p: ProgramId): (calls: seq<GlCall>)
    ensures calls == [] <==> used == Some(p)
    ensures calls != [] ==> calls == [UseProgram(p)]
  {
    if used == Some(p) then [] else [UseProgram(p)]
  }

  /**
   * The `normalized` flag as written: `attribute.normalized || true` is
   * true whatever the attribute says.
   */
  function NormalizedAsWritten(a: MeshAttribute): bool {
    var flag := a.normalized.Some? && a.normalized.value;
    flag || true
  }

  /** An attribute that asks not to be normalised still gets normalised under the expression as written. */
  lemma NormalizedAsWrittenIgnoresFlag(a: MeshAttribute)
    requires a.normalized == Some(false)
    ensures NormalizedAsWritten(a) != a.normalized.value
  {
  }

  /** The `normalized` flag as evidently intended: the attribute's own flag, `true` when it has none. */
  function NormalizedFlag(a: MeshAttribute): (r: bool)
    ensures !r <==> a.normalized == Some(false)
    ensures a.normalized.Some? ==> r == a.normalized.value
  {
    if a.normalized.Some? then a.normalized.value else true
  }

  /** The binding of one mesh attribute at a resolved index: stride 0 and the mesh's own offset. */
  function BindCall(index: int, a: MeshAttribute): GlCall {
    BindVertexAttribute(index, a.count, a.componentType, NormalizedFlag(a), 0, a.offset)
  }

  /** The bindings `apply` issues for the mesh attributes, in the mesh's order, skipping unresolved keys. */
  function BindCalls(attributeMap: seq<(string, MeshAttribute)>, indices: map<string, int>): seq<GlCall>
    decreases |attributeMap|
  {
    if attributeMap == [] then []
    else
      var last := attributeMap[|attributeMap| - 1];
      var before := BindCalls(attributeMap[..|attributeMap| - 1], indices);
      if last.0 in indices then before + [BindCall(indices[last.0], last.1)] else before
  }

  /** A binding is issued exactly for each mesh attribute whose key has a resolved index, and at most one per attribute. */
  lemma {:induction false} BindCallsExact(attributeMap: seq<(string, MeshAttribute)>, indices: map<string, int>, c: GlCall)
    ensures c in BindCalls(attributeMap, indices) <==>
      exists i | 0 <= i < |attributeMap| :: attributeMap[i].0 in indices && c == BindCall(indices[attributeMap[i].0], attributeMap[i].1)
    ensures |BindCalls(attributeMap, indices)| <= |attributeMap|
    decreases |attributeMap|
  {
    if attributeMap != [] {
      var init := attributeMap[..|attributeMap| - 1];
      BindCallsExact(init, indices, c);
      forall i | 0 <= i < |init| ensures init[i] == attributeMap[i] { }
    }
  }

  /** Attribute bindings never make a program current. */
  lemma {:induction false} BindCallsSwitchNothing(attributeMap: seq<(string, MeshAttribute)>, indices: map<string, int>)
    ensures NoSwitch(BindCalls(attributeMap, indices))
    decreases |attributeMap|
  {
    if attributeMap != [] {
      BindCallsSwitchNothing(attributeMap[..|attributeMap| - 1], indices);
    }
  }

  /** Preparing a shader makes its program current only through `useProgram`: the compile calls switch nothing. */
  lemma PrepareSwitches(before: seq<GlCall>, compile: seq<GlCall>, used: Option<ProgramId>, p: ProgramId)
    requires NoSwitch(compile)
    ensures ProgramSwitches(before + compile + UseCalls(used, p)) == ProgramSwitches(before) + (if used == Some(p) then [] else [p])
  {
    ProgramSwitchesAppend(before + compile, UseCalls(used, p));
    ProgramSwitchesAppend(before, compile);
    NoSwitchSwitchesNothing(compile);
    assert ProgramSwitches(UseCalls(used, p)) == (if used == Some(p) then [] else [p]) by {
      if used != Some(p) {
        assert UseCalls(used, p)[..0] == [];
      }
    }
  }

  /** Calls that switch nothing leave the switches of a log as they were. */
  lemma SwitchesKept(before: seq<GlCall>, bind: seq<GlCall>, run: seq<GlCall>)
    requires NoSwitch(bind) && NoSwitch(run)
    ensures ProgramSwitches(before + bind + run) == ProgramSwitches(before)
  {
    ProgramSwitchesAppend(before + bind, run);
    ProgramSwitchesAppend(before, bind);
    NoSwitchSwitchesNothing(bind);
    NoSwitchSwitchesNothing(run);
  }

  /** The cached matrices of a uniform record; no record means no cached matrices. */
  function Cache(rec: UniformRecord?): map<string, Mat4>
    reads rec
  {
    if rec == null then map[] else rec.values
  }

  /**
   * The body of a matrix callback against its uniform call object: a cached
   * copy within tolerance means no write; otherwise the copy is replaced (or
   * first stored) and the matrix written.
   */
  method PushMatrix(uniform: ShaderCall, slot: string, matrix: Mat4)
    modifies uniform.context`log, uniform.currentRecord
    ensures var r := CachedPush(old(uniform.currentRecord.values), slot, uniform.location, matrix);
      uniform.currentRecord.values == r.0 && uniform.context.log == old(uniform.context.log) + r.1
  {
    var record := uniform.currentRecord;
    if slot in record.values {
      var equals := CompareMatrices(record.values[slot], matrix);
      if equals {
        return;
      }
      record.values := record.values[slot := matrix];  // curValue.copy(matrix)
    } else {
      record.values := record.values[slot := matrix];  // put(uniform, matrix.clone())
    }
    uniform.context.Issue(UniformMatrix4fv(uniform.location, false, matrix));
  }

  /**
   * One callback called with the uniform call mapping `slots`, all of whose
   * call objects write to `context` and share the record `rec`.
   */
  method Call(cb: Callback, slots: map<string, ShaderCall>, camera: Camera, info: ShaderInfo, context: Context, rec: UniformRecord?)
    returns (outcome: Outcome)
    requires forall k | k in slots :: slots[k].context == context && slots[k].currentRecord == rec
    modifies context`log, rec
    ensures var e := Invoke(cb, slots, old(Cache(rec)), camera, info);
      outcome == e.outcome && context.log == old(context.log) + e.calls && Cache(rec) == e.cache
  {
    if cb.Custom? {
      context.Issue(CustomCallback(cb.id));
      return Completed;
    }
    var name := SlotName(cb).value;
    if name !in slots {
      return MissingSlot(name);  // `uniformMapping[name]` is undefined: TypeError
    }
    var uniform := slots[name];
    var matrix := MatrixSource(cb, camera, info);
    if matrix.Some? {
      PushMatrix(uniform, name, matrix.value);
    } else {
      context.Issue(UniformWrite(cb, uniform.location, camera, info));
    }
    outcome := Completed;
  }

  /**
   * `for (i in this.currentCallbacks) this.currentCallbacks[i](...)`: the
   * callbacks of `order`, in that order, until one throws.
   */
  method CallAll(order: seq<string>, callbacks: map<string, Callback>, slots: map<string, ShaderCall>,
                 camera: Camera, info: ShaderInfo, context: Context, rec: UniformRecord?) returns (outcome: Outcome)
    requires forall n | n in order :: n in callbacks
    requires forall k | k in slots :: slots[k].context == context && slots[k].currentRecord == rec
    modifies context`log, rec
    ensures var e := RunAll(order, callbacks, slots, old(Cache(rec)), camera, info);
      outcome == e.outcome && Cache(rec) == e.cache && context.log == old(context.log) + e.calls
  {
    ghost var whole := RunAll(order, callbacks, slots, Cache(rec), camera, info);
    ghost var issued: seq<GlCall> := [];
    var i := 0;
    assert order[0..] == order;
    while i < |order|
      invariant 0 <= i <= |order|
      invariant context.log == old(context.log) + issued
      invariant forall n | n in order[i..] :: n in callbacks
      invariant var rest := RunAll(order[i..], callbacks, slots, Cache(rec), camera, info);
        whole == Effect(rest.outcome, rest.cache, issued + rest.calls)
      decreases |order| - i
    {
      var o;
      o, issued := CallAt(order, i, callbacks, slots, camera, info, context, rec, whole, old(context.log), issued);
      if o.MissingSlot? {
        return o;
      }
      i := i + 1;
    }
    RunAllEnd(order, callbacks, slots, Cache(rec), camera, info);
    AppendEmpty(issued);
    outcome := Completed;
  }

  /**
   * The callback at position `i` of `order`, given that the calls `issued`
   * so far followed by the run from `i` make up the whole run `whole`.
   */
  method CallAt(order: seq<string>, i: nat, callbacks: map<string, Callback>, slots: map<string, ShaderCall>,
                camera: Camera, info: ShaderInfo, context: Context, rec: UniformRecord?,
                ghost whole: Effect, ghost base: seq<GlCall>, ghost issued: seq<GlCall>)
    returns (outcome: Outcome, ghost issuedNext: seq<GlCall>)
    requires i < |order| && forall n | n in order[i..] :: n in callbacks
    requires forall k | k in slots :: slots[k].context == context && slots[k].currentRecord == rec
    requires context.log == base + issued
    requires var rest := RunAll(order[i..], callbacks, slots, Cache(rec), camera, info);
      whole == Effect(rest.outcome, rest.cache, issued + rest.calls)
    modifies context`log, rec
    ensures context.log == base + issuedNext
    ensures forall n | n in order[i + 1..] :: n in callbacks
    ensures outcome.MissingSlot? ==> whole == Effect(outcome, Cache(rec), issuedNext)
    ensures outcome.Completed? ==>
      var rest := RunAll(order[i + 1..], callbacks, slots, Cache(rec), camera, info);
      whole == Effect(rest.outcome, rest.cache, issuedNext + rest.calls)
  {
    var cb := callbacks[order[i]];
    ghost var first := Invoke(cb, slots, Cache(rec), camera, info);
    RunAllStep(order[i..], 0, callbacks, slots, Cache(rec), camera, info);
    assert order[i..][0] == order[i] && order[i..][1..] == order[i + 1..];
    outcome := Call(cb, slots, camera, info, context, rec);
    AppendAssociative3(base, issued, first.calls);
    issuedNext := issued + first.calls;
    if outcome.Completed? {
      AppendAssociative3(issued, first.calls, RunAll(order[i + 1..], callbacks, slots, Cache(rec), camera, info).calls);
    } else {
      AppendEmpty(issuedNext);
    }
  }

  /** `after` is `before` with at most one record added, for program `p`. */
  predicate NewRecordOnly(before: map<ProgramId, UniformRecord>, after: map<ProgramId, UniformRecord>, p: ProgramId) {
    after == before || (p in after && after == before[p := after[p]])
  }

  /** A record added for a new program keeps the renderer's records valid. */
  lemma RecordsStayValid(renderer: Renderer, before: map<ProgramId, UniformRecord>, p: ProgramId)
    requires forall q | q in before :: q < p
    requires forall q1, q2 | q1 in before && q2 in before && q1 != q2 :: before[q1] != before[q2]
    requires renderer.context.nextProgram == p + 1
    requires renderer.shaderRecord.usedProgram.Some? ==> renderer.shaderRecord.usedProgram.value < p
    requires renderer.shaderRecord.uniformRecords == before
      || (p in renderer.shaderRecord.uniformRecords
          && renderer.shaderRecord.uniformRecords == before[p := renderer.shaderRecord.uniformRecords[p]]
          && renderer.shaderRecord.uniformRecords[p] !in before.Values)
    ensures renderer.Valid()
  {
  }

  class Shader {
    const name: string
    const vertexSource: string
    const fragmentSource: string
    const defaultCallbacks: map<string, Callback>

    var shaderProgram: Option<ProgramId>
    var attributeMapping: map<string, string>
    var attributeIndexMapping: map<string, int>
    var uniformMapping: map<string, string>
    var uniformCallMapping: map<string, ShaderCall>
    var uniformLocationMapping: map<string, Location>
    var textureCount: nat
    var currentCallbacks: map<string, Callback>
    /** The keys of `currentCallbacks` in the order `for (i in this.currentCallbacks)` visits them. */
    var callbackOrder: seq<string>

    /**
     * The default table holds each default callback under its own name, the
     * callback order lists the current callbacks, and compile results exist
     * only for scanned names and only once a program exists.
     */
    predicate Valid()
      reads this
    {
      DefaultsUnderOwnNames(defaultCallbacks)
      && OrderValid(callbackOrder, currentCallbacks)
      && attributeIndexMapping.Keys <= attributeMapping.Keys
      && uniformCallMapping.Keys <= uniformMapping.Keys
      && uniformLocationMapping.Keys <= uniformMapping.Keys
      && (shaderProgram.None? ==> attributeIndexMapping == map[] && uniformCallMapping == map[] && uniformLocationMapping == map[])
    }

    /** The state the declaration scan works on. */
    function Snapshot(): Tables
      reads this
    {
      Tables(attributeMapping, uniformMapping, textureCount, currentCallbacks, callbackOrder)
    }

    /**
     * The program was handed out by `renderer`'s context and every uniform
     * call object writes to that context and to the program's one record.
     */
    predicate CompiledFor(renderer: Renderer)
      reads this, renderer, renderer.context, renderer.shaderRecord
    {
      shaderProgram.Some? ==>
        && shaderProgram.value < renderer.context.nextProgram
        && (uniformCallMapping != map[] ==> shaderProgram.value in renderer.shaderRecord.uniformRecords)
        && (forall k | k in uniformCallMapping ::
              && uniformCallMapping[k].context == renderer.context
              && shaderProgram.value in renderer.shaderRecord.uniformRecords
              && uniformCallMapping[k].currentRecord == renderer.shaderRecord.uniformRecords[shaderProgram.value])
    }

    /**
     * The compile results against `context`: every scanned attribute has its
     * location in the program, and every scanned uniform its location and a
     * call object writing there.
     */
    predicate Resolved(context: Context)
      reads this
    {
      && shaderProgram.Some?
      && attributeIndexMapping.Keys == attributeMapping.Keys
      && (forall k | k in attributeMapping ::
            attributeIndexMapping[k] == context.attribLocation(shaderProgram.value, attributeMapping[k]))
      && uniformLocationMapping.Keys == uniformMapping.Keys
      && (forall k | k in uniformMapping ::
            uniformLocationMapping[k] == context.uniformLocation(shaderProgram.value, uniformMapping[k]))
      && uniformCallMapping.Keys == uniformMapping.Keys
      && (forall k | k in uniformMapping :: uniformCallMapping[k].location == uniformLocationMapping[k])
    }

    /** `new Shader(name, vertexSource, fragmentSource)`: empty tables, no program, its own default callbacks. */
    constructor (name: string, vertexSource: string, fragmentSource: string)
      ensures Valid()
      ensures this.name == name && this.vertexSource == vertexSource && this.fragmentSource == fragmentSource
      ensures shaderProgram == None && textureCount == 0
      ensures attributeMapping == map[] && attributeIndexMapping == map[]
      ensures uniformMapping == map[] && uniformCallMapping == map[] && uniformLocationMapping == map[]
      ensures currentCallbacks == map[] && callbackOrder == []
      ensures DefaultsUnderOwnNames(defaultCallbacks)
      ensures forall cb | IsDefault(cb) :: SlotName(cb).value in defaultCallbacks && defaultCallbacks[SlotName(cb).value] == cb
    {
      this.name := name;
      this.vertexSource := vertexSource;
      this.fragmentSource := fragmentSource;
      shaderProgram := None;
      attributeMapping := map[];
      attributeIndexMapping := map[];
      uniformMapping := map[];
      uniformCallMapping := map[];
      uniformLocationMapping := map[];
      textureCount := 0;
      var table := SetupDefaultCallbacks();
      defaultCallbacks := table;
      currentCallbacks := map[];
      callbackOrder := [];
    }

    /** `bindCallback(name, callback)`: sets one entry of the current callbacks. */
    method BindCallback(name: string, callback: Callback)
      requires Valid()
      requires IsDefault(callback) || callback.Custom?
      modifies this`currentCallbacks, this`callbackOrder
      ensures Valid()
      ensures Snapshot() == SetCallback(old(Snapshot()), name, callback)
    {
      if name !in currentCallbacks {
        callbackOrder := callbackOrder + [name];
      }
      currentCallbacks := currentCallbacks[name := callback];
    }

    /** The body of the scan loop for one match `d`: file it under its binding name and wire its default callback. */
    method FileDeclaration(d: Declaration)
      requires Valid()
      modifies this`attributeMapping, this`uniformMapping, this`textureCount, this`currentCallbacks, this`callbackOrder
      ensures Valid()
      ensures Snapshot() == Enroll(old(Snapshot()), d, defaultCallbacks)
    {
      var bindingName := if d.annotation.None? then d.variable else d.annotation.value;
      if d.kind == Attribute {
        attributeMapping := attributeMapping[bindingName := d.variable];
      } else {
        if StringUtil.IndexOf(d.format, "sampler", 0) == 0 {
          textureCount := textureCount + 1;
        }
        uniformMapping := uniformMapping[bindingName := d.variable];
      }
      if bindingName in defaultCallbacks {
        BindCallback(bindingName, defaultCallbacks[bindingName]);
      }
    }

    /** `_investigateShader(source)`: files every declaration the pattern finds, left to right. */
    method InvestigateShader(source: string)
      requires Valid()
      modifies this`attributeMapping, this`uniformMapping, this`textureCount, this`currentCallbacks, this`callbackOrder
      ensures Valid()
      ensures Snapshot() == ScanAll(old(Snapshot()), Declarations(source), defaultCallbacks)
    {
      ghost var all := Declarations(source);
      ghost var start := Snapshot();
      var pos := 0;
      var matcher := FindMatch(source, pos);
      ghost var done: seq<Declaration> := [];
      while matcher.Some?
        invariant Valid()
        invariant pos <= |source|
        invariant matcher == FindMatch(source, pos)
        invariant all == done + MatchesFrom(source, pos)
        invariant Snapshot() == ScanAll(start, done, defaultCallbacks)
        decreases |source| - pos
      {
        var d := matcher.value;
        MatchesFromUnfold(source, pos);
        ghost var rest := MatchesFrom(source, d.end);
        ScanAllSnoc(start, done, d, defaultCallbacks);
        FileDeclaration(d);
        AppendAssociative(done, d, rest);
        done := done + [d];
        pos := d.end;
        matcher := FindMatch(source, pos);
      }
      MatchesFromUnfold(source, pos);
      AppendEmpty(done);
    }

    /** `_investigateShaders`: resets the texture counter and scans both stages. */
    method InvestigateShaders()
      requires Valid()
      modifies this`attributeMapping, this`uniformMapping, this`textureCount, this`currentCallbacks, this`callbackOrder
      ensures Valid()
      ensures Snapshot() == Investigated(old(Snapshot()), Declarations(vertexSource), Declarations(fragmentSource), defaultCallbacks)
    {
      textureCount := 0;
      InvestigateShader(vertexSource);
      InvestigateShader(fragmentSource);
    }

    /**
     * `compile(renderer)`: builds and links a new program, resolves every
     * attribute and uniform location, and gives every uniform a call object
     * on the program's one uniform record, created here when the program has
     * uniforms.
     */
    method Compile(renderer: Renderer)
      requires Valid() && renderer.Valid()
      modifies this`shaderProgram, this`attributeIndexMapping, this`uniformLocationMapping, this`uniformCallMapping
      modifies renderer.context, renderer.shaderRecord
      ensures Valid() && renderer.Valid() && CompiledFor(renderer)
      ensures shaderProgram == Some(old(renderer.context.nextProgram))
      ensures renderer.context.nextProgram == old(renderer.context.nextProgram) + 1
      ensures renderer.context.log == old(renderer.context.log) + CompileCalls(vertexSource, fragmentSource, shaderProgram.value)
      ensures attributeIndexMapping.Keys == attributeMapping.Keys
      ensures forall k | k in attributeMapping :: attributeIndexMapping[k] == renderer.context.attribLocation(shaderProgram.value, attributeMapping[k])
      ensures uniformLocationMapping.Keys == uniformMapping.Keys
      ensures forall k | k in uniformMapping :: uniformLocationMapping[k] == renderer.context.uniformLocation(shaderProgram.value, uniformMapping[k])
      ensures uniformMapping == map[] ==> renderer.shaderRecord.uniformRecords == old(renderer.shaderRecord.uniformRecords)
      ensures uniformMapping != map[] ==>
        && shaderProgram.value !in old(renderer.shaderRecord.uniformRecords)
        && shaderProgram.value in renderer.shaderRecord.uniformRecords
        && fresh(renderer.shaderRecord.uniformRecords[shaderProgram.value])
        && renderer.shaderRecord.uniformRecords[shaderProgram.value].values == map[]
        && renderer.shaderRecord.uniformRecords
           == old(renderer.shaderRecord.uniformRecords)[shaderProgram.value := renderer.shaderRecord.uniformRecords[shaderProgram.value]]
      ensures uniformCallMapping.Keys == uniformMapping.Keys
      ensures forall k | k in uniformMapping :: uniformCallMapping[k].location == uniformLocationMapping[k]
      ensures Resolved(renderer.context)
      ensures renderer.shaderRecord.usedProgram == old(renderer.shaderRecord.usedProgram)
    {
      var context := renderer.context;
      var p := context.BuildProgram(vertexSource, fragmentSource);
      shaderProgram := Some(p);
      ResolveAttributes(context, p);
      ResolveUniforms(renderer, p);
      RecordsStayValid(renderer, old(renderer.shaderRecord.uniformRecords), p);
    }

    /** The attribute loop of `compile`: the location of every scanned attribute in program `p`. */
    method ResolveAttributes(context: Context, p: ProgramId)
      requires attributeIndexMapping.Keys <= attributeMapping.Keys
      modifies this`attributeIndexMapping
      ensures attributeIndexMapping.Keys == attributeMapping.Keys
      ensures forall k | k in attributeMapping :: attributeIndexMapping[k] == context.attribLocation(p, attributeMapping[k])
    {
      var keys := attributeMapping.Keys;
      while keys != {}
        invariant keys <= attributeMapping.Keys
        invariant attributeIndexMapping.Keys <= attributeMapping.Keys
        invariant forall k | k in attributeMapping && k !in keys ::
          k in attributeIndexMapping && attributeIndexMapping[k] == context.attribLocation(p, attributeMapping[k])
        decreases keys
      {
        var key :| key in keys;
        attributeIndexMapping := attributeIndexMapping[key := context.attribLocation(p, attributeMapping[key])];
        keys := keys - {key};
      }
      assert attributeIndexMapping.Keys == attributeMapping.Keys;
    }

    /**
     * The uniform loop of `compile`: the location of every scanned uniform in
     * program `p` and its call object, all on one record of `p`, which the
     * first uniform creates.
     */
    method ResolveUniforms(renderer: Renderer, p: ProgramId)
      requires uniformLocationMapping.Keys <= uniformMapping.Keys && uniformCallMapping.Keys <= uniformMapping.Keys
      requires p !in renderer.shaderRecord.uniformRecords
      modifies this`uniformLocationMapping, this`uniformCallMapping, renderer.shaderRecord`uniformRecords
      ensures uniformLocationMapping.Keys == uniformMapping.Keys && uniformCallMapping.Keys == uniformMapping.Keys
      ensures forall k | k in uniformMapping :: uniformLocationMapping[k] == renderer.context.uniformLocation(p, uniformMapping[k])
      ensures uniformMapping == map[] ==> renderer.shaderRecord.uniformRecords == old(renderer.shaderRecord.uniformRecords)
      ensures uniformMapping != map[] ==>
        && p in renderer.shaderRecord.uniformRecords
        && fresh(renderer.shaderRecord.uniformRecords[p])
        && renderer.shaderRecord.uniformRecords[p].values == map[]
        && renderer.shaderRecord.uniformRecords == old(renderer.shaderRecord.uniformRecords)[p := renderer.shaderRecord.uniformRecords[p]]
      ensures forall k | k in uniformMapping ::
        && p in renderer.shaderRecord.uniformRecords
        && uniformCallMapping[k] == ShaderCall(renderer.context, renderer.shaderRecord.uniformRecords[p], uniformLocationMapping[k])
    {
      var context := renderer.context;
      var record := renderer.shaderRecord;
      var keys := uniformMapping.Keys;
      while keys != {}
        invariant keys <= uniformMapping.Keys
        invariant uniformLocationMapping.Keys <= uniformMapping.Keys && uniformCallMapping.Keys <= uniformMapping.Keys
        invariant keys == uniformMapping.Keys ==> record.uniformRecords == old(record.uniformRecords)
        invariant keys != uniformMapping.Keys ==>
          && p in record.uniformRecords
          && fresh(record.uniformRecords[p])
          && record.uniformRecords[p].values == map[]
          && record.uniformRecords == old(record.uniformRecords)[p := record.uniformRecords[p]]
        invariant forall k | k in uniformMapping && k !in keys ::
          && k in uniformLocationMapping && uniformLocationMapping[k] == context.uniformLocation(p, uniformMapping[k])
          && k in uniformCallMapping && p in record.uniformRecords
          && uniformCallMapping[k] == ShaderCall(context, record.uniformRecords[p], uniformLocationMapping[k])
        decreases keys
      {
        var key :| key in keys;
        var location := context.uniformLocation(p, uniformMapping[key]);
        uniformLocationMapping := uniformLocationMapping[key := location];
        var uniformRecord: UniformRecord;
        if p in record.uniformRecords {
          uniformRecord := record.uniformRecords[p];
        } else {
          uniformRecord := new UniformRecord();
          record.uniformRecords := record.uniformRecords[p := uniformRecord];
        }
        uniformCallMapping := uniformCallMapping[key := ShaderCall(context, uniformRecord, location)];
        keys := keys - {key};
      }
      assert uniformLocationMapping.Keys == uniformMapping.Keys;
    }

    /** The attribute loop of `apply`: binds the mesh attributes whose keys have a resolved index. */
    method BindAttributes(attributeMap: seq<(string, MeshAttribute)>, renderer: Renderer)
      modifies renderer.context`log
      ensures renderer.context.log == old(renderer.context.log) + BindCalls(attributeMap, attributeIndexMapping)
    {
      var i := 0;
      while i < |attributeMap|
        invariant 0 <= i <= |attributeMap|
        invariant renderer.context.log == old(renderer.context.log) + BindCalls(attributeMap[..i], attributeIndexMapping)
      {
        var key := attributeMap[i].0;
        var attribute := attributeMap[i].1;
        if key in attributeIndexMapping {
          renderer.BindVertexAttribute(attributeIndexMapping[key], attribute.count, attribute.componentType,
                                       NormalizedFlag(attribute), 0, attribute.offset);
        }
        assert attributeMap[..i + 1][..i] == attributeMap[..i];
        i := i + 1;
      }
      assert attributeMap[..i] == attributeMap;
    }

    /**
     * The callback loop of `apply` for this shader's program, on `renderer`'s
     * context and the program's record; records of other programs are left
     * alone.
     */
    method RunCallbacks(info: ShaderInfo, camera: Camera, renderer: Renderer) returns (outcome: Outcome)
      requires Valid() && renderer.Valid() && CompiledFor(renderer) && shaderProgram.Some?
      modifies renderer.context`log, renderer.shaderRecord.uniformRecords.Values
      ensures var e := RunAll(callbackOrder, currentCallbacks, uniformCallMapping,
                              old(renderer.CacheOf(shaderProgram.value)), camera, info);
        && outcome == e.outcome
        && renderer.CacheOf(shaderProgram.value) == e.cache
        && renderer.context.log == old(renderer.context.log) + e.calls
      ensures forall q | q in renderer.shaderRecord.uniformRecords && q != shaderProgram.value ::
        renderer.shaderRecord.uniformRecords[q].values == old(renderer.shaderRecord.uniformRecords[q].values)
    {
      var p := shaderProgram.value;
      var records := renderer.shaderRecord.uniformRecords;
      var rec: UniformRecord? := if p in records then records[p] else null;
      outcome := CallAll(callbackOrder, currentCallbacks, uniformCallMapping, camera, info, renderer.context, rec);
    }

    /** The first use of a shader: scan both sources, then compile. */
    method FirstUse(renderer: Renderer)
      requires Valid() && renderer.Valid() && CompiledFor(renderer) && shaderProgram.None?
      modifies this, renderer.context, renderer.shaderRecord
      ensures Valid() && renderer.Valid() && CompiledFor(renderer)
      ensures shaderProgram == Some(old(renderer.context.nextProgram))
      ensures renderer.context.nextProgram == old(renderer.context.nextProgram) + 1
      ensures renderer.shaderRecord.usedProgram == old(renderer.shaderRecord.usedProgram)
      ensures Snapshot() == Investigated(old(Snapshot()), Declarations(vertexSource), Declarations(fragmentSource), defaultCallbacks)
      ensures Resolved(renderer.context)
      ensures renderer.context.log == old(renderer.context.log) + CompileCalls(vertexSource, fragmentSource, shaderProgram.value)
      ensures shaderProgram.value !in old(renderer.shaderRecord.uniformRecords)
      ensures NewRecordOnly(old(renderer.shaderRecord.uniformRecords), renderer.shaderRecord.uniformRecords, shaderProgram.value)
      ensures forall r | r in renderer.shaderRecord.uniformRecords.Values :: r in old(renderer.shaderRecord.uniformRecords.Values) || fresh(r)
      ensures var p := shaderProgram.value; renderer.CacheOf(p) == old(renderer.CacheOf(p))
    {
      InvestigateShaders();
      Compile(renderer);
    }

    /** On first use: scan both sources and compile; afterwards nothing. */
    method EnsureCompiled(renderer: Renderer)
      requires Valid() && renderer.Valid() && CompiledFor(renderer)
      modifies this, renderer.context, renderer.shaderRecord
      ensures Valid() && renderer.Valid() && CompiledFor(renderer)
      ensures shaderProgram.Some? && shaderProgram.value < renderer.context.nextProgram
      ensures renderer.context.nextProgram == old(renderer.context.nextProgram) + (if old(shaderProgram).None? then 1 else 0)
      ensures renderer.shaderRecord.usedProgram == old(renderer.shaderRecord.usedProgram)
      ensures old(shaderProgram).Some? ==>
        && shaderProgram == old(shaderProgram)
        && Snapshot() == old(Snapshot())
        && attributeIndexMapping == old(attributeIndexMapping)
        && uniformCallMapping == old(uniformCallMapping)
        && uniformLocationMapping == old(uniformLocationMapping)
        && renderer.context.log == old(renderer.context.log)
        && renderer.shaderRecord.uniformRecords == old(renderer.shaderRecord.uniformRecords)
      ensures old(shaderProgram).None? ==>
        && shaderProgram == Some(old(renderer.context.nextProgram))
        && Snapshot() == Investigated(old(Snapshot()), Declarations(vertexSource), Declarations(fragmentSource), defaultCallbacks)
        && attributeIndexMapping.Keys == attributeMapping.Keys
        && uniformCallMapping.Keys == uniformMapping.Keys
        && Resolved(renderer.context)
        && renderer.context.log == old(renderer.context.log) + CompileCalls(vertexSource, fragmentSource, shaderProgram.value)
        && shaderProgram.value !in old(renderer.shaderRecord.uniformRecords)
        && NewRecordOnly(old(renderer.shaderRecord.uniformRecords), renderer.shaderRecord.uniformRecords, shaderProgram.value)
      ensures forall r | r in renderer.shaderRecord.uniformRecords.Values :: r in old(renderer.shaderRecord.uniformRecords.Values) || fresh(r)
      ensures var p := shaderProgram.value; renderer.CacheOf(p) == old(renderer.CacheOf(p))
    {
      if shaderProgram.None? {
        FirstUse(renderer);
      }
    }

    /** `if (this.shaderProgram !== record.usedProgram) useProgram(...)`: makes the program current unless it already is. */
    method MakeCurrent(renderer: Renderer)
      requires renderer.Valid() && shaderProgram.Some? && shaderProgram.value < renderer.context.nextProgram
      modifies renderer.context`log, renderer.shaderRecord`usedProgram
      ensures renderer.Valid()
      ensures renderer.shaderRecord.usedProgram == shaderProgram
      ensures renderer.context.log == old(renderer.context.log) + UseCalls(old(renderer.shaderRecord.usedProgram), shaderProgram.value)
    {
      var p := shaderProgram.value;
      if renderer.shaderRecord.usedProgram != Some(p) {
        renderer.context.Issue(UseProgram(p));
        renderer.shaderRecord.usedProgram := Some(p);
      }
    }

    /**
     * The first half of `apply`: on first use scans and compiles, then makes
     * the program current unless it already is.
     */
    method Prepare(renderer: Renderer)
      requires Valid() && renderer.Valid() && CompiledFor(renderer)
      modifies this, renderer.context, renderer.shaderRecord
      ensures Valid() && renderer.Valid() && CompiledFor(renderer)
      ensures shaderProgram.Some? && renderer.shaderRecord.usedProgram == shaderProgram
      ensures renderer.context.nextProgram == old(renderer.context.nextProgram) + (if old(shaderProgram).None? then 1 else 0)
      ensures old(shaderProgram).Some? ==>
        && shaderProgram == old(shaderProgram)
        && Snapshot() == old(Snapshot())
        && attributeIndexMapping == old(attributeIndexMapping)
        && uniformCallMapping == old(uniformCallMapping)
        && uniformLocationMapping == old(uniformLocationMapping)
        && renderer.shaderRecord.uniformRecords == old(renderer.shaderRecord.uniformRecords)
      ensures old(shaderProgram).None? ==>
        && shaderProgram == Some(old(renderer.context.nextProgram))
        && Snapshot() == Investigated(old(Snapshot()), Declarations(vertexSource), Declarations(fragmentSource), defaultCallbacks)
        && attributeIndexMapping.Keys == attributeMapping.Keys
        && uniformCallMapping.Keys == uniformMapping.Keys
        && Resolved(renderer.context)
      ensures var p := shaderProgram.value;
        && renderer.CacheOf(p) == old(renderer.CacheOf(p))
        && renderer.context.log == old(renderer.context.log)
             + (if old(shaderProgram).None? then CompileCalls(vertexSource, fragmentSource, p) else [])
             + UseCalls(old(renderer.shaderRecord.usedProgram), p)
      ensures ProgramSwitches(renderer.context.log) == ProgramSwitches(old(renderer.context.log))
        + (if old(renderer.shaderRecord.usedProgram) == shaderProgram then [] else [shaderProgram.value])
      ensures forall q | q in old(renderer.shaderRecord.uniformRecords) && q != shaderProgram.value ::
        && q in renderer.shaderRecord.uniformRecords
        && renderer.shaderRecord.uniformRecords[q] == old(renderer.shaderRecord.uniformRecords[q])
        && renderer.shaderRecord.uniformRecords[q].values == old(renderer.shaderRecord.uniformRecords[q].values)
      ensures forall r | r in renderer.shaderRecord.uniformRecords.Values :: r in old(renderer.shaderRecord.uniformRecords.Values) || fresh(r)
    {
      ghost var compiled := shaderProgram.Some?;
      EnsureCompiled(renderer);
      MakeCurrent(renderer);
      ghost var p := shaderProgram.value;
      assert NoSwitch(CompileCalls(vertexSource, fragmentSource, p));
      PrepareSwitches(old(renderer.context.log), if compiled then [] else CompileCalls(vertexSource, fragmentSource, p),
                      old(renderer.shaderRecord.usedProgram), p);
    }

    /**
     * The second half of `apply`: binds the mesh attributes and runs the
     * callbacks, on a program that is already current.
     */
    method Draw(info: ShaderInfo, camera: Camera, renderer: Renderer) returns (outcome: Outcome)
      requires Valid() && renderer.Valid() && CompiledFor(renderer) && shaderProgram.Some?
      modifies renderer.context`log, renderer.shaderRecord.uniformRecords.Values
      ensures renderer.Valid() && CompiledFor(renderer)
      ensures renderer.context.nextProgram == old(renderer.context.nextProgram)
      ensures renderer.shaderRecord.usedProgram == old(renderer.shaderRecord.usedProgram)
      ensures renderer.shaderRecord.uniformRecords == old(renderer.shaderRecord.uniformRecords)
      ensures var e := RunAll(callbackOrder, currentCallbacks, uniformCallMapping,
                              old(renderer.CacheOf(shaderProgram.value)), camera, info);
        && outcome == e.outcome
        && renderer.CacheOf(shaderProgram.value) == e.cache
        && renderer.context.log == old(renderer.context.log) + BindCalls(info.attributeMap, attributeIndexMapping) + e.calls
      ensures ProgramSwitches(renderer.context.log) == ProgramSwitches(old(renderer.context.log))
      ensures forall q | q in renderer.shaderRecord.uniformRecords && q != shaderProgram.value ::
        renderer.shaderRecord.uniformRecords[q].values == old(renderer.shaderRecord.uniformRecords[q].values)
    {
      ghost var cache := renderer.CacheOf(shaderProgram.value);
      BindAttributes(info.attributeMap, renderer);
      ghost var bound := renderer.context.log;
      outcome := RunCallbacks(info, camera, renderer);
      BindCallsSwitchNothing(info.attributeMap, attributeIndexMapping);
      RunAllSwitchesNothing(callbackOrder, currentCallbacks, uniformCallMapping, cache, camera, info);
      SwitchesKept(old(renderer.context.log), BindCalls(info.attributeMap, attributeIndexMapping),
                   RunAll(callbackOrder, currentCallbacks, uniformCallMapping, cache, camera, info).calls);
    }

    /**
     * `apply(shaderInfo, renderer)`: on first use scans and compiles, then
     * makes the program current, binds the mesh attributes and runs every
     * current callback.
     */
    method Apply(info: ShaderInfo, camera: Camera, renderer: Renderer) returns (outcome: Outcome)
      requires Valid() && renderer.Valid() && CompiledFor(renderer)
      modifies this, renderer.context, renderer.shaderRecord, renderer.shaderRecord.uniformRecords.Values
      ensures Valid() && renderer.Valid() && CompiledFor(renderer)
      ensures shaderProgram.Some? && renderer.shaderRecord.usedProgram == shaderProgram
      ensures renderer.context.nextProgram == old(renderer.context.nextProgram) + (if old(shaderProgram).None? then 1 else 0)
      ensures old(shaderProgram).Some? ==>
        && shaderProgram == old(shaderProgram)
        && Snapshot() == old(Snapshot())
        && attributeIndexMapping == old(attributeIndexMapping)
        && uniformCallMapping == old(uniformCallMapping)
        && uniformLocationMapping == old(uniformLocationMapping)
        && renderer.shaderRecord.uniformRecords == old(renderer.shaderRecord.uniformRecords)
      ensures old(shaderProgram).None? ==>
        && shaderProgram == Some(old(renderer.context.nextProgram))
        && Snapshot() == Investigated(old(Snapshot()), Declarations(vertexSource), Declarations(fragmentSource), defaultCallbacks)
        && attributeIndexMapping.Keys == attributeMapping.Keys
        && uniformCallMapping.Keys == uniformMapping.Keys
        && Resolved(renderer.context)
      ensures ProgramSwitches(renderer.context.log) == ProgramSwitches(old(renderer.context.log))
        + (if old(renderer.shaderRecord.usedProgram) == shaderProgram then [] else [shaderProgram.value])
      ensures forall r | r in renderer.shaderRecord.uniformRecords.Values :: r in old(renderer.shaderRecord.uniformRecords.Values) || fresh(r)
      ensures var p := shaderProgram.value;
        var e := RunAll(callbackOrder, currentCallbacks, uniformCallMapping, old(renderer.CacheOf(p)), camera, info);
        && outcome == e.outcome
        && renderer.CacheOf(p) == e.cache
        && renderer.context.log == old(renderer.context.log)
             + (if old(shaderProgram).None? then CompileCalls(vertexSource, fragmentSource, p) else [])
             + UseCalls(old(renderer.shaderRecord.usedProgram), p)
             + BindCalls(info.attributeMap, attributeIndexMapping)
             + e.calls
      ensures forall q | q in old(renderer.shaderRecord.uniformRecords) && q != shaderProgram.value ::
        && q in renderer.shaderRecord.uniformRecords
        && renderer.shaderRecord.uniformRecords[q] == old(renderer.shaderRecord.uniformRecords[q])
        && renderer.shaderRecord.uniformRecords[q].values == old(renderer.shaderRecord.uniformRecords[q].values)
    {
      Prepare(renderer);
      outcome := Draw(info, camera, renderer);
    }
  }

  /**
   * Two draws with one shader in a row: the second finds its program current,
   * so at most one `useProgram` is issued, and none when the program was
   * current already.
   */
  method DrawTwice(a: Shader, info: ShaderInfo, camera: Camera, renderer: Renderer) returns (first: Outcome, second: Outcome)
    requires a.Valid() && renderer.Valid() && a.CompiledFor(renderer)
    modifies a, renderer.context, renderer.shaderRecord, renderer.shaderRecord.uniformRecords.Values
    ensures a.shaderProgram.Some? && renderer.shaderRecord.usedProgram == a.shaderProgram
    ensures ProgramSwitches(renderer.context.log) == ProgramSwitches(old(renderer.context.log))
      + (if old(renderer.shaderRecord.usedProgram) == a.shaderProgram then [] else [a.shaderProgram.value])
  {
    first := a.Apply(info, camera, renderer);
    second := a.Apply(info, camera, renderer);
  }

  /**
   * Applying shader `a` keeps another shader `b` ready: a program of its own
   * stays compiled for the renderer, and `a` ends with a program different
   * from `b`'s. Only `a`'s `useProgram` switches programs.
   */
  method ApplyBeside(a: Shader, b: Shader, info: ShaderInfo, camera: Camera, renderer: Renderer) returns (outcome: Outcome)
    requires a != b
    requires a.Valid() && b.Valid() && renderer.Valid() && a.CompiledFor(renderer) && b.CompiledFor(renderer)
    requires a.shaderProgram.Some? && b.shaderProgram.Some? ==> a.shaderProgram != b.shaderProgram
    modifies a, renderer.context, renderer.shaderRecord, renderer.shaderRecord.uniformRecords.Values
    ensures a.Valid() && renderer.Valid() && a.CompiledFor(renderer) && b.CompiledFor(renderer)
    ensures a.shaderProgram.Some? && renderer.shaderRecord.usedProgram == a.shaderProgram
    ensures old(a.shaderProgram).Some? ==> a.shaderProgram == old(a.shaderProgram)
    ensures b.shaderProgram.Some? ==> a.shaderProgram != b.shaderProgram
    ensures forall r | r in renderer.shaderRecord.uniformRecords.Values :: r in old(renderer.shaderRecord.uniformRecords.Values) || fresh(r)
    ensures ProgramSwitches(renderer.context.log) == ProgramSwitches(old(renderer.context.log))
      + (if old(renderer.shaderRecord.usedProgram) == a.shaderProgram then [] else [a.shaderProgram.value])
  {
    outcome := a.Apply(info, camera, renderer);
    assert b.shaderProgram.Some? ==> b.shaderProgram.value != a.shaderProgram.value;
  }

  /**
   * Draws alternating between two shaders, A then B then A: each draw after
   * the first switches programs, and the first does unless A's program was
   * current. The two programs differ whenever they are compiled here.
   */
  method DrawAlternating(a: Shader, b: Shader, info: ShaderInfo, camera: Camera, renderer: Renderer)
    returns (first: Outcome, second: Outcome, third: Outcome)
    requires a != b
    requires a.Valid() && b.Valid() && renderer.Valid() && a.CompiledFor(renderer) && b.CompiledFor(renderer)
    requires a.shaderProgram.Some? && b.shaderProgram.Some? ==> a.shaderProgram != b.shaderProgram
    modifies a, b, renderer.context, renderer.shaderRecord, renderer.shaderRecord.uniformRecords.Values
    ensures a.shaderProgram.Some? && b.shaderProgram.Some? && a.shaderProgram != b.shaderProgram
    ensures renderer.shaderRecord.usedProgram == a.shaderProgram
    ensures ProgramSwitches(renderer.context.log) == ProgramSwitches(old(renderer.context.log))
      + (if old(renderer.shaderRecord.usedProgram) == a.shaderProgram then [] else [a.shaderProgram.value])
      + [b.shaderProgram.value, a.shaderProgram.value]
  {
    first := ApplyBeside(a, b, info, camera, renderer);
    second := ApplyBeside(b, a, info, camera, renderer);
    third := ApplyBeside(a, b, info, camera, renderer);
  }
}
